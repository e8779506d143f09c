/**
 The transitions of InMemoryStore (store.go, inmemory_caps.go) as functions on
 its contents, and the laws of fetching. The class in Store.dfy is proved
 against these.
 */
module StoreSpec {
  import opened Options
  import opened Calendar
  import opened Jobs

  datatype StoreState = StoreState(jobs: map<int, Job>, nextID: int)

  ghost predicate Valid(s: StoreState) {
    0 <= s.nextID && forall id :: id in s.jobs ==> s.jobs[id].id == id && 1 <= id <= s.nextID
  }

  // ---- Enqueue ----

  /** The insert time: the job's own, or the wall clock. */
  function InsertTime(job: Job, wall: Instant): Instant {
    if job.insertedAt == ZERO_TIME then wall else job.insertedAt
  }

  predicate Unique(job: Job) { job.uniqueKey != "" && job.uniquePeriod > 0 }

  predicate ConflictsWith(existing: Job, job: Job, now: Instant) {
    && existing.queue == job.queue && existing.worker == job.worker && existing.uniqueKey == job.uniqueKey
    && Unfinished(existing.state) && existing.insertedAt >= now - job.uniquePeriod
  }

  ghost predicate Blocked(s: StoreState, job: Job, now: Instant) {
    Unique(job) && exists id :: id in s.jobs && ConflictsWith(s.jobs[id], job, now)
  }

  /** The stored form of a new job: schedule resolved, state normalised from it. */
  function Resolved(job: Job, id: int, now: Instant): Job {
    var at := match job.scheduleIn case Some(d) => now + d case None => job.scheduledAt;
    var at := if at == ZERO_TIME then now else at;
    job.(id := id, insertedAt := now, scheduledAt := at, state := if at > now then Scheduled else Available)
  }

  ghost function EnqueueStep(s: StoreState, job: Job, wall: Instant): StoreState {
    var now := InsertTime(job, wall);
    if Blocked(s, job, now) then s
    else StoreState(s.jobs[s.nextID + 1 := Resolved(job, s.nextID + 1, now)], s.nextID + 1)
  }

  // ---- FetchAvailable ----

  predicate Eligible(j: Job, queue: string, now: Instant) {
    j.queue == queue && Fetchable(j.state) && j.scheduledAt <= now
  }

  /** Execution order: priority, then scheduled time, then ID. */
  predicate Before(a: Job, b: Job) {
    if a.priority != b.priority then a.priority < b.priority
    else if a.scheduledAt != b.scheduledAt then a.scheduledAt < b.scheduledAt
    else a.id < b.id
  }

  ghost predicate Ordered(js: seq<Job>) {
    forall i, k :: 0 <= i < k < |js| ==> Before(js[i], js[k])
  }

  ghost function Elements(js: seq<Job>): set<Job> {
    set j | j in js
  }

  function Candidates(s: StoreState, queue: string, now: Instant): set<Job> {
    set id | id in s.jobs && Eligible(s.jobs[id], queue, now) :: s.jobs[id]
  }

  ghost predicate DistinctIds(c: set<Job>) {
    forall a, b :: a in c && b in c && a.id == b.id ==> a == b
  }

  /** js lists exactly the jobs of c, in execution order. */
  ghost predicate Ranks(js: seq<Job>, c: set<Job>) {
    Ordered(js) && Elements(js) == c
  }

  lemma ElementsAt(js: seq<Job>)
    ensures forall i :: 0 <= i < |js| ==> js[i] in Elements(js)
    ensures forall i :: 0 <= i < |js| ==> js[i].id in IdsOf(js)
  {
    forall i | 0 <= i < |js| ensures js[i] in Elements(js) && js[i].id in IdsOf(js) {
      assert js[i] in js;
    }
  }

  /** There is one way to rank a set of jobs, whatever order it was collected in. */
  lemma {:induction false} RanksUnique(a: seq<Job>, b: seq<Job>, c: set<Job>)
    requires Ranks(a, c) && Ranks(b, c)
    ensures a == b
    decreases |a|
  {
    ElementsAt(a);
    ElementsAt(b);
    assert (|a| > 0 ==> a[0] in c) && (|b| > 0 ==> b[0] in c);
    if a == [] || b == [] {
    } else {
      assert a[0] in Elements(b) && b[0] in Elements(a);
      assert a[0] == b[0];
      RanksTail(a, c);
      RanksTail(b, c);
      RanksUnique(a[1..], b[1..], c - {a[0]});
      assert a == [a[0]] + a[1..] && b == [b[0]] + b[1..];
    }
  }

  lemma RanksTail(a: seq<Job>, c: set<Job>)
    requires Ranks(a, c) && a != []
    ensures Ranks(a[1..], c - {a[0]})
  {
    forall j ensures j in Elements(a[1..]) <==> j in c - {a[0]} {
      if j in Elements(a[1..]) {
        var i :| 0 <= i < |a[1..]| && a[1..][i] == j;
        assert a[i + 1] == j && Before(a[0], a[i + 1]);
      }
    }
  }

  lemma {:induction false} RankingExists(c: set<Job>)
    requires DistinctIds(c)
    ensures exists js :: Ranks(js, c)
    decreases |c|
  {
    if c == {} {
      assert Ranks([], c);
    } else {
      var m := Least(c);
      RankingExists(c - {m});
      var rest :| Ranks(rest, c - {m});
      var js := [m] + rest;
      ElementsAt(rest);
      forall k | 0 < k < |js| ensures Before(js[0], js[k]) {
        assert js[k] == rest[k - 1] && rest[k - 1] in Elements(rest);
      }
      assert Elements(js) == c by {
        forall j ensures j in Elements(js) <==> j in c {
          assert j in js <==> j == m || j in rest;
          assert j in rest <==> j in Elements(rest);
        }
      }
      assert Ranks(js, c);
    }
  }

  lemma {:induction false} Least(c: set<Job>) returns (m: Job)
    requires c != {} && DistinctIds(c)
    ensures m in c && forall j :: j in c && j != m ==> Before(m, j)
    decreases |c|
  {
    var x :| x in c;
    m := x;
    if c != {x} {
      var n := Least(c - {x});
      assert n != x && n in c;
      m := if Before(n, x) then n else x;
      forall j | j in c && j != m ensures Before(m, j) {
        assert j == x || j == n || Before(n, j);
      }
    } else {
      forall j | j in c ensures j == x {}
    }
  }

  ghost function Ranking(c: set<Job>): (js: seq<Job>)
    requires DistinctIds(c)
    ensures Ranks(js, c)
  {
    RankingExists(c);
    var js :| Ranks(js, c);
    js
  }

  function Marked(j: Job, now: Instant): Job {
    j.(state := Executing, attempt := j.attempt + 1, attemptedAt := now)
  }

  function Min(a: int, b: int): int { if a < b then a else b }

  ghost function Picked(s: StoreState, queue: string, limit: int, now: Instant): (js: seq<Job>)
    requires Valid(s)
  {
    var r := Ranking(Candidates(s, queue, now));
    if limit <= 0 then [] else r[..Min(limit, |r|)]
  }

  /** The jobs handed out: the picked ones, as they are after the transition. */
  ghost function Fetched(s: StoreState, queue: string, limit: int, now: Instant): seq<Job>
    requires Valid(s)
  {
    MarkedAll(Picked(s, queue, limit, now), now)
  }

  function MarkedAll(js: seq<Job>, now: Instant): seq<Job> {
    seq(|js|, i requires 0 <= i < |js| => Marked(js[i], now))
  }

  function IdsOf(js: seq<Job>): set<int> {
    set j | j in js :: j.id
  }

  function MarkJobs(jobs: map<int, Job>, ids: set<int>, now: Instant): map<int, Job> {
    map id | id in jobs :: if id in ids then Marked(jobs[id], now) else jobs[id]
  }

  ghost function FetchStep(s: StoreState, queue: string, limit: int, now: Instant): StoreState
    requires Valid(s)
  {
    s.(jobs := MarkJobs(s.jobs, IdsOf(Picked(s, queue, limit, now)), now))
  }

  lemma PickedFacts(s: StoreState, queue: string, limit: int, now: Instant)
    requires Valid(s)
    ensures var js := Picked(s, queue, limit, now);
      && Ordered(js)
      && (forall i :: 0 <= i < |js| ==> js[i].id in s.jobs && s.jobs[js[i].id] == js[i] && Eligible(js[i], queue, now))
      && |js| <= (if limit <= 0 then 0 else limit)
  {
    var c := Candidates(s, queue, now);
    var r := Ranking(c);
    forall i | 0 <= i < |r| ensures r[i] in c {
      assert r[i] in Elements(r);
    }
  }

  /** A fetch does not touch an executing job. */
  lemma FetchSkipsExecuting(s: StoreState, queue: string, limit: int, now: Instant, id: int)
    requires Valid(s) && id in s.jobs && s.jobs[id].state.Executing?
    ensures id in FetchStep(s, queue, limit, now).jobs && FetchStep(s, queue, limit, now).jobs[id] == s.jobs[id]
  {
    PickedFacts(s, queue, limit, now);
    hide Picked;
  }

  /** Fetching is optimal: every eligible job left behind comes after every job taken, and the limit was used up. */
  lemma FetchTakesFirst(s: StoreState, queue: string, limit: int, now: Instant, id: int)
    requires Valid(s) && limit > 0
    requires id in s.jobs && Eligible(s.jobs[id], queue, now) && id !in IdsOf(Picked(s, queue, limit, now))
    ensures var js := Picked(s, queue, limit, now);
      |js| == limit && forall i :: 0 <= i < |js| ==> Before(js[i], s.jobs[id])
  {
    var r := Ranking(Candidates(s, queue, now));
    ElementsAt(Picked(s, queue, limit, now));
    assert s.jobs[id] in Elements(r);
    var k :| 0 <= k < |r| && r[k] == s.jobs[id];
    assert k >= |Picked(s, queue, limit, now)|;
  }

  lemma MarkTwice(jobs: map<int, Job>, a: set<int>, b: set<int>, now: Instant)
    requires a !! b
    ensures MarkJobs(MarkJobs(jobs, a, now), b, now) == MarkJobs(jobs, a + b, now)
  {
  }

  lemma AppendPicked(a: seq<Job>, b: seq<Job>, now: Instant)
    ensures MarkedAll(a + b, now) == MarkedAll(a, now) + MarkedAll(b, now)
    ensures IdsOf(a + b) == IdsOf(a) + IdsOf(b)
  {
    forall id ensures id in IdsOf(a + b) <==> id in IdsOf(a) + IdsOf(b) {
      assert forall j :: j in a + b <==> j in a || j in b;
    }
  }

  /** Two fetches at one time are one larger fetch: same jobs in the same order, same final store. */
  lemma FetchSplit(s: StoreState, queue: string, a: int, b: int, now: Instant)
    requires Valid(s) && a >= 0 && b >= 0
    ensures Valid(FetchStep(s, queue, a, now))
    ensures var s1 := FetchStep(s, queue, a, now);
      && Fetched(s, queue, a, now) + Fetched(s1, queue, b, now) == Fetched(s, queue, a + b, now)
      && FetchStep(s1, queue, b, now) == FetchStep(s, queue, a + b, now)
  {
    hide Ranks, Candidates, MarkedAll;
    CandidatesDistinct(s, queue, now);
    var s1 := FetchStep(s, queue, a, now);
    var r := Ranking(Candidates(s, queue, now));
    var n := Min(a, |r|);
    LeftOver(s, queue, a, now);
    CandidatesDistinct(s1, queue, now);
    RanksUnique(Ranking(Candidates(s1, queue, now)), r[n..], Candidates(s1, queue, now));
    var first, second := Picked(s, queue, a, now), Picked(s1, queue, b, now);
    assert first == r[..n] && second == r[n..][..Min(b, |r| - n)];
    assert Picked(s, queue, a + b, now) == first + second;
    AppendPicked(first, second, now);
    PickedFacts(s1, queue, b, now);
    MarkTwice(s.jobs, IdsOf(first), IdsOf(second), now);
  }

  lemma CandidatesDistinct(s: StoreState, queue: string, now: Instant)
    requires Valid(s)
    ensures DistinctIds(Candidates(s, queue, now))
  {
  }

  /** What stays eligible after a fetch is the rest of the ranking. */
  lemma LeftOver(s: StoreState, queue: string, limit: int, now: Instant)
    requires Valid(s) && limit >= 0
    ensures Valid(FetchStep(s, queue, limit, now))
    ensures var r := Ranking(Candidates(s, queue, now));
      Ranks(r[Min(limit, |r|)..], Candidates(FetchStep(s, queue, limit, now), queue, now))
  {
    var r := Ranking(Candidates(s, queue, now));
    var n := Min(limit, |r|);
    assert Picked(s, queue, limit, now) == r[..n];
    RestRanks(s, FetchStep(s, queue, limit, now), r, n, queue, now);
  }

  lemma RestRanks(s: StoreState, s1: StoreState, r: seq<Job>, n: nat, queue: string, now: Instant)
    requires Valid(s) && Ranks(r, Candidates(s, queue, now)) && n <= |r|
    requires s1.jobs == MarkJobs(s.jobs, IdsOf(r[..n]), now)
    ensures Ranks(r[n..], Candidates(s1, queue, now))
  {
    hide Before;
    var first, rest := r[..n], r[n..];
    ElementsAt(rest);
    forall j | j in Elements(rest) ensures j in Candidates(s1, queue, now) {
      var k :| 0 <= k < |rest| && rest[k] == j;
      RestUnmarked(s, r, n, k, queue, now);
      assert s1.jobs[j.id] == j;
    }
    forall j | j in Candidates(s1, queue, now) ensures j in Elements(rest) {
      var id :| id in s1.jobs && s1.jobs[id] == j && Eligible(j, queue, now);
      RestKept(s, r, n, id, queue, now);
    }
  }

  lemma RestKept(s: StoreState, r: seq<Job>, n: nat, id: int, queue: string, now: Instant)
    requires Ranks(r, Candidates(s, queue, now)) && n <= |r|
    requires id in s.jobs && id !in IdsOf(r[..n]) && Eligible(s.jobs[id], queue, now) && s.jobs[id].id == id
    ensures s.jobs[id] in Elements(r[n..])
  {
    var first, rest := r[..n], r[n..];
    ElementsAt(first);
    ElementsAt(rest);
    assert s.jobs[id] in Elements(r);
    forall i | 0 <= i < n ensures r[i].id != id {
      assert first[i] == r[i];
    }
    var k :| 0 <= k < |r| && r[k] == s.jobs[id];
    assert rest[k - n] == s.jobs[id];
  }

  lemma RestUnmarked(s: StoreState, r: seq<Job>, n: nat, k: nat, queue: string, now: Instant)
    requires Valid(s) && Ranks(r, Candidates(s, queue, now)) && n + k < |r|
    ensures var j := r[n..][k];
      j.id in s.jobs && s.jobs[j.id] == j && Eligible(j, queue, now) && j.id !in IdsOf(r[..n])
  {
    var first := r[..n];
    ElementsAt(r);
    forall i | 0 <= i < n ensures first[i].id != r[n + k].id {
      assert first[i] == r[i] && Before(r[i], r[n + k]);
      assert r[i] in Candidates(s, queue, now) && r[n + k] in Candidates(s, queue, now);
    }
  }

  // ---- Finishing, one job at a time ----

  function CompletedJob(j: Job, now: Instant): Job {
    j.(state := Completed, completedAt := now)
  }

  function Noted(j: Job, error: Option<string>, now: Instant): Job {
    match error case Some(m) => j.RecordError(m, now) case None => j
  }

  function RetriedJob(j: Job, at: Instant, error: Option<string>, now: Instant): Job {
    Noted(j, error, now).(state := Retryable, scheduledAt := at)
  }

  function DiscardedJob(j: Job, error: Option<string>, now: Instant): Job {
    Noted(j, error, now).(state := Discarded, discardedAt := now)
  }

  function CancelledJob(j: Job, now: Instant): Job {
    if Finished(j.state) then j else j.(state := Cancelled, discardedAt := now)
  }

  function RestartedJob(j: Job, now: Instant): Job {
    j.(state := Available, scheduledAt := now, completedAt := ZERO_TIME, discardedAt := ZERO_TIME)
  }

  function SnoozedJob(j: Job, until: Instant): Job {
    if !j.state.Executing? then j
    else j.(state := Scheduled, scheduledAt := until, attempt := if j.attempt > 0 then j.attempt - 1 else j.attempt)
  }

  function Put(s: StoreState, id: int, j: Job): StoreState {
    s.(jobs := s.jobs[id := j])
  }

  // ---- Rescue and prune ----

  predicate Stuck(j: Job, olderThan: Instant) {
    j.state.Executing? && j.attemptedAt < olderThan
  }

  function RescuedJob(j: Job, olderThan: Instant, now: Instant): Job {
    if !Stuck(j, olderThan) then j
    else if j.attempt < j.maxAttempts then j.(state := Available, scheduledAt := now)
    else j.(state := Discarded, discardedAt := now)
  }

  /** The rescue pass with the jobs of todo still to be visited. */
  function RescueExcept(s: StoreState, todo: set<int>, olderThan: Instant, now: Instant): map<int, Job> {
    map id | id in s.jobs :: if id in todo then s.jobs[id] else RescuedJob(s.jobs[id], olderThan, now)
  }

  function RescueStep(s: StoreState, olderThan: Instant, now: Instant): StoreState {
    s.(jobs := RescueExcept(s, {}, olderThan, now))
  }

  /** Stuck jobs with attempts to spare, and without. */
  function Rescuable(s: StoreState, olderThan: Instant): set<int> {
    set id | id in s.jobs && Stuck(s.jobs[id], olderThan) && s.jobs[id].attempt < s.jobs[id].maxAttempts
  }

  function Doomed(s: StoreState, olderThan: Instant): set<int> {
    set id | id in s.jobs && Stuck(s.jobs[id], olderThan) && s.jobs[id].attempt >= s.jobs[id].maxAttempts
  }

  /** inmemFinishTime. */
  function FinishTime(j: Job): Instant {
    if j.state.Completed? && j.completedAt != ZERO_TIME then j.completedAt
    else if (j.state.Discarded? || j.state.Cancelled?) && j.discardedAt != ZERO_TIME then j.discardedAt
    else j.insertedAt
  }

  function Prunable(s: StoreState, states: set<State>, cutoff: Instant): set<int> {
    set id | id in s.jobs && s.jobs[id].state in states && FinishTime(s.jobs[id]) < cutoff
  }

  /** The prunable IDs a limited prune removes: all of them, or the limit lowest. */
  ghost predicate Pruned(gone: set<int>, all: set<int>, limit: int) {
    && gone <= all
    && (limit <= 0 ==> gone == all)
    && (limit > 0 ==> |gone| == Min(limit, |all|))
    && forall a, b :: a in gone && b in all && b !in gone ==> a < b
  }
}
