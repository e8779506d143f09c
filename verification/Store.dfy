/**
 InMemoryStore (store.go, inmemory_caps.go): the methods, with their loops over the
 job map in any order, proved against the transitions of StoreSpec.

 A method returning "found" reports ErrJobNotFound as false. Jobs are values, so
 the clones the methods hand out cannot alias the stored jobs.
 */
module Store {
  import opened Options
  import opened Calendar
  import opened Jobs
  import opened StoreSpec

  class InMemoryStore {
    var jobs: map<int, Job>
    var nextID: int

    ghost function View(): StoreState
      reads this
    {
      StoreState(jobs, nextID)
    }

    ghost predicate Valid()
      reads this
    {
      StoreSpec.Valid(View())
    }

    constructor ()
      ensures Valid() && View() == StoreState(map[], 0)
    {
      jobs, nextID := map[], 0;
    }

    /** Insert job unless an unfinished duplicate exists within its unique period. */
    method Enqueue(job: Job, wall: Instant) returns (result: Job, inserted: bool)
      requires Valid()
      modifies this
      ensures Valid()
      ensures View() == EnqueueStep(old(View()), job, wall)
      ensures inserted <==> !Blocked(old(View()), job, InsertTime(job, wall))
      ensures result.id in jobs && jobs[result.id] == result
      ensures inserted ==> result.id !in old(jobs)
      ensures !inserted ==> ConflictsWith(result, job, InsertTime(job, wall))
    {
      var now := job.insertedAt;
      if now == ZERO_TIME {
        now := wall;
      }
      if job.uniqueKey != "" && job.uniquePeriod > 0 {
        var existing := FindUnique(job, now);
        if existing.Some? {
          return existing.value, false;
        }
      }
      var stored := job;
      nextID := nextID + 1;
      stored := stored.(id := nextID, insertedAt := now);
      if job.scheduleIn.Some? {
        stored := stored.(scheduledAt := now + job.scheduleIn.value);
      }
      if stored.scheduledAt == ZERO_TIME {
        stored := stored.(scheduledAt := now);
      }
      if stored.scheduledAt > now {
        stored := stored.(state := Scheduled);
      } else {
        stored := stored.(state := Available);
      }
      jobs := jobs[stored.id := stored];
      return stored, true;
    }

    method FindUnique(job: Job, now: Instant) returns (r: Option<Job>)
      requires Valid()
      ensures r.Some? ==> r.value.id in jobs && jobs[r.value.id] == r.value && ConflictsWith(r.value, job, now)
      ensures r.None? ==> forall id :: id in jobs ==> !ConflictsWith(jobs[id], job, now)
    {
      var cutoff := now - job.uniquePeriod;
      var todo := jobs.Keys;
      while todo != {}
        invariant todo <= jobs.Keys
        invariant forall id :: id in jobs && id !in todo ==> !ConflictsWith(jobs[id], job, now)
        decreases todo
      {
        Inhabited(todo);
        var id :| id in todo;
        todo := todo - {id};
        var existing := jobs[id];
        if existing.queue != job.queue || existing.worker != job.worker {
          continue;
        }
        if existing.uniqueKey != job.uniqueKey {
          continue;
        }
        if !Unfinished(existing.state) {
          continue;
        }
        if existing.insertedAt < cutoff {
          continue;
        }
        return Some(existing);
      }
      return None;
    }

    /** Lock up to limit runnable jobs of the queue and hand them out in execution order. */
    method FetchAvailable(queue: string, limit: int, now: Instant) returns (out: seq<Job>)
      requires Valid()
      modifies this
      ensures Valid()
      ensures View() == FetchStep(old(View()), queue, limit, now)
      ensures out == Fetched(old(View()), queue, limit, now)
    {
      ghost var s := View();
      CandidatesDistinct(s, queue, now);
      if limit <= 0 {
        return [];
      }
      var candidates: seq<Job> := [];
      var todo := jobs.Keys;
      while todo != {}
        invariant todo <= jobs.Keys && View() == s
        invariant Elements(candidates) == set id | id in jobs && id !in todo && Eligible(jobs[id], queue, now) :: jobs[id]
        invariant NoSharedIds(candidates)
        decreases todo
      {
        Inhabited(todo);
        var id :| id in todo;
        var j := jobs[id];
        ghost var seen := Elements(candidates);
        todo := todo - {id};
        if j.queue != queue {
          continue;
        }
        if !Fetchable(j.state) {
          continue;
        }
        if j.scheduledAt > now {
          continue;
        }
        ElementsAt(candidates);
        candidates := candidates + [j];
        assert Elements(candidates) == seen + {j};
      }
      assert Elements(candidates) == Candidates(s, queue, now);
      candidates := SortJobs(candidates);
      RanksUnique(candidates, Ranking(Candidates(s, queue, now)), Candidates(s, queue, now));
      if |candidates| > limit {
        candidates := candidates[..limit];
      }
      assert candidates == Picked(s, queue, limit, now);
      PickedFacts(s, queue, limit, now);
      out := MarkLoop(candidates, now);
      LeftOver(s, queue, limit, now);
    }

    /** The last loop of FetchAvailable: mark the chosen jobs executing and clone them. */
    method MarkLoop(candidates: seq<Job>, now: Instant) returns (out: seq<Job>)
      requires Ordered(candidates)
      requires forall i :: 0 <= i < |candidates| ==>
        candidates[i].id in jobs && jobs[candidates[i].id] == candidates[i]
      modifies this
      ensures jobs == MarkJobs(old(jobs), IdsOf(candidates), now) && nextID == old(nextID)
      ensures out == MarkedAll(candidates, now)
    {
      out := [];
      assert candidates[..0] == [];
      for i := 0 to |candidates|
        invariant jobs == MarkJobs(old(jobs), IdsOf(candidates[..i]), now) && nextID == old(nextID)
        invariant out == MarkedAll(candidates[..i], now)
      {
        var id := candidates[i].id;
        OneMore(old(jobs), candidates, i, now);
        var j := jobs[id];
        j := j.(state := Executing, attempt := j.attempt + 1, attemptedAt := now);
        jobs := jobs[id := j];
        out := out + [j];
      }
      assert candidates[..|candidates|] == candidates;
    }

    method Complete(id: int, now: Instant) returns (found: bool)
      requires Valid()
      modifies this
      ensures Valid()
      ensures found <==> id in old(jobs)
      ensures View() == if found then Put(old(View()), id, CompletedJob(old(jobs)[id], now)) else old(View())
    {
      if id !in jobs {
        return false;
      }
      jobs := jobs[id := jobs[id].(state := Completed, completedAt := now)];
      return true;
    }

    method Retry(id: int, scheduledAt: Instant, lastErr: Option<string>, now: Instant) returns (found: bool)
      requires Valid()
      modifies this
      ensures Valid()
      ensures found <==> id in old(jobs)
      ensures View() ==
        if found then Put(old(View()), id, RetriedJob(old(jobs)[id], scheduledAt, lastErr, now)) else old(View())
    {
      if id !in jobs {
        return false;
      }
      var j := jobs[id];
      if lastErr.Some? {
        j := j.RecordError(lastErr.value, now);
      }
      jobs := jobs[id := j.(state := Retryable, scheduledAt := scheduledAt)];
      return true;
    }

    method Discard(id: int, lastErr: Option<string>, now: Instant) returns (found: bool)
      requires Valid()
      modifies this
      ensures Valid()
      ensures found <==> id in old(jobs)
      ensures View() ==
        if found then Put(old(View()), id, DiscardedJob(old(jobs)[id], lastErr, now)) else old(View())
    {
      if id !in jobs {
        return false;
      }
      var j := jobs[id];
      if lastErr.Some? {
        j := j.RecordError(lastErr.value, now);
      }
      jobs := jobs[id := j.(state := Discarded, discardedAt := now)];
      return true;
    }

    method Cancel(id: int, now: Instant) returns (found: bool)
      requires Valid()
      modifies this
      ensures Valid()
      ensures found <==> id in old(jobs)
      ensures View() == if found then Put(old(View()), id, CancelledJob(old(jobs)[id], now)) else old(View())
    {
      if id !in jobs {
        return false;
      }
      var j := jobs[id];
      if Finished(j.state) {
        assert jobs[id := j] == jobs;
        return true;
      }
      jobs := jobs[id := j.(state := Cancelled, discardedAt := now)];
      return true;
    }

    method RetryNow(id: int, now: Instant) returns (found: bool)
      requires Valid()
      modifies this
      ensures Valid()
      ensures found <==> id in old(jobs)
      ensures View() == if found then Put(old(View()), id, RestartedJob(old(jobs)[id], now)) else old(View())
    {
      if id !in jobs {
        return false;
      }
      jobs := jobs[id := jobs[id].(state := Available, scheduledAt := now, completedAt := ZERO_TIME, discardedAt := ZERO_TIME)];
      return true;
    }

    method Snooze(id: int, until: Instant) returns (found: bool)
      requires Valid()
      modifies this
      ensures Valid()
      ensures found <==> id in old(jobs)
      ensures View() == if found then Put(old(View()), id, SnoozedJob(old(jobs)[id], until)) else old(View())
    {
      if id !in jobs {
        return false;
      }
      var j := jobs[id];
      if !j.state.Executing? {
        assert jobs[id := j] == jobs;
        return true;
      }
      j := j.(state := Scheduled, scheduledAt := until);
      if j.attempt > 0 {
        j := j.(attempt := j.attempt - 1);
      }
      jobs := jobs[id := j];
      return true;
    }

    /** Recover jobs left executing since before olderThan. */
    method RescueExecuting(olderThan: Instant, now: Instant) returns (rescued: int, discarded: int)
      requires Valid()
      modifies this
      ensures Valid()
      ensures View() == RescueStep(old(View()), olderThan, now)
      ensures rescued == |Rescuable(old(View()), olderThan)| && discarded == |Doomed(old(View()), olderThan)|
    {
      hide RescueExcept, Rescuable, Doomed, StoreSpec.Valid;
      ghost var s := View();
      ghost var saved, lost := Rescuable(s, olderThan), Doomed(s, olderThan);
      rescued, discarded := 0, 0;
      var todo := jobs.Keys;
      RescueStart(s, olderThan, now);
      CountStart(s, olderThan);
      while todo != {}
        invariant todo <= s.jobs.Keys && nextID == s.nextID
        invariant jobs == RescueExcept(s, todo, olderThan, now)
        invariant rescued == |saved - todo| && discarded == |lost - todo|
        decreases todo
      {
        Inhabited(todo);
        var id :| id in todo;
        RescueVisit(s, todo, id, olderThan, now);
        CountStep(s, todo, id, olderThan);
        SameEntry(jobs, id);
        todo := todo - {id};
        var j := jobs[id];
        if !j.state.Executing? {
          continue;
        }
        if !(j.attemptedAt < olderThan) {
          continue;
        }
        if j.attempt < j.maxAttempts {
          jobs := jobs[id := j.(state := Available, scheduledAt := now)];
          rescued := rescued + 1;
        } else {
          jobs := jobs[id := j.(state := Discarded, discardedAt := now)];
          discarded := discarded + 1;
        }
      }
    }

    /** Delete finished jobs older than cutoff, lowest IDs first, at most limit of them if limit is positive. */
    method DeleteFinishedBefore(states: set<State>, cutoff: Instant, limit: int) returns (n: int)
      requires Valid()
      modifies this
      ensures Valid()
      ensures var gone := old(jobs).Keys - jobs.Keys;
        && Pruned(gone, Prunable(old(View()), states, cutoff), limit)
        && jobs == old(jobs) - gone && nextID == old(nextID) && n == |gone|
    {
      hide Firsts, Pruned, Prunable, StoreSpec.Valid;
      ghost var s, all := View(), Prunable(View(), states, cutoff);
      var ids := FinishedIds(states, cutoff);
      ids := SortIds(ids);
      AllIds(ids, all);
      n := DeleteLoop(ids, limit);
      PrunedPrefix(ids, n, all, limit);
      FirstsGone(s, ids, n, states, cutoff);
    }

    method DeleteLoop(ids: seq<int>, limit: int) returns (n: int)
      modifies this
      ensures nextID == old(nextID)
      ensures n == (if limit > 0 then Min(limit, |ids|) else |ids|) && jobs == old(jobs) - Firsts(ids, n)
    {
      hide Firsts;
      FirstsNone(jobs, ids);
      n := 0;
      for i := 0 to |ids|
        invariant n == i && (limit > 0 ==> i <= limit)
        invariant jobs == old(jobs) - Firsts(ids, i) && nextID == old(nextID)
      {
        if limit > 0 && n >= limit {
          return;
        }
        FirstsStep(old(jobs), ids, i);
        jobs := jobs - {ids[i]};
        n := n + 1;
      }
    }

    method FinishedIds(states: set<State>, cutoff: Instant) returns (ids: seq<int>)
      requires Valid()
      ensures forall id :: id in ids <==> id in Prunable(View(), states, cutoff)
      ensures forall i, k :: 0 <= i < k < |ids| ==> ids[i] != ids[k]
    {
      ids := [];
      var todo := jobs.Keys;
      while todo != {}
        invariant todo <= jobs.Keys
        invariant forall id :: id in ids <==> id in Prunable(View(), states, cutoff) && id !in todo
        invariant forall i, k :: 0 <= i < k < |ids| ==> ids[i] != ids[k]
        decreases todo
      {
        Inhabited(todo);
        var id :| id in todo;
        todo := todo - {id};
        if jobs[id].state !in states {
          continue;
        }
        if FinishTime(jobs[id]) < cutoff {
          ids := ids + [id];
        }
      }
    }
  }

  // ---- sort.Slice, and the facts the loops need ----

  ghost predicate NoSharedIds(js: seq<Job>) {
    forall i, k :: 0 <= i < k < |js| ==> js[i].id != js[k].id
  }

  /** sort.Slice with the order of FetchAvailable; any sorting algorithm gives the same result by RanksUnique. */
  method SortJobs(js: seq<Job>) returns (r: seq<Job>)
    requires NoSharedIds(js)
    ensures Ranks(r, Elements(js))
  {
    r := [];
    for i := 0 to |js|
      invariant Ranks(r, Elements(js[..i]))
    {
      var j := js[i];
      assert Elements(js[..i + 1]) == Elements(js[..i]) + {j};
      ElementsAt(r);
      var k := 0;
      while k < |r| && Before(r[k], j)
        invariant 0 <= k <= |r|
        invariant forall n :: 0 <= n < k ==> Before(r[n], j)
      {
        k := k + 1;
      }
      InsertRanks(r, k, j, Elements(js[..i]));
      r := r[..k] + [j] + r[k..];
    }
    assert js[..|js|] == js;
  }

  lemma InsertRanks(r: seq<Job>, k: nat, j: Job, c: set<Job>)
    requires Ranks(r, c) && k <= |r| && forall x :: x in c ==> x.id != j.id
    requires forall n :: 0 <= n < k ==> Before(r[n], j)
    requires k < |r| ==> !Before(r[k], j)
    ensures Ranks(r[..k] + [j] + r[k..], c + {j})
  {
    ElementsAt(r);
    forall n | k <= n < |r| ensures Before(j, r[n]) {
      assert r[n] in c && r[k] in c;
      assert Before(j, r[k]);
    }
    hide Before;
    InsertOrdered(r, k, j);
    InsertElements(r, k, j);
  }

  lemma InsertOrdered(r: seq<Job>, k: nat, j: Job)
    requires Ordered(r) && k <= |r|
    requires forall n :: 0 <= n < k ==> Before(r[n], j)
    requires forall n :: k <= n < |r| ==> Before(j, r[n])
    ensures Ordered(r[..k] + [j] + r[k..])
  {
    hide Before;
    var r' := r[..k] + [j] + r[k..];
    forall n | 0 <= n < |r'| ensures r'[n] == if n < k then r[n] else if n == k then j else r[n - 1] {}
  }

  lemma InsertElements(r: seq<Job>, k: nat, j: Job)
    requires k <= |r|
    ensures Elements(r[..k] + [j] + r[k..]) == Elements(r) + {j}
  {
    assert r == r[..k] + r[k..];
    forall x ensures x in r[..k] + [j] + r[k..] <==> x in r || x == j {
      assert x in r <==> x in r[..k] || x in r[k..];
    }
  }

  lemma OneMore(jobs: map<int, Job>, js: seq<Job>, i: nat, now: Instant)
    requires i < |js| && js[i].id in jobs && jobs[js[i].id] == js[i]
    requires Ordered(js)
    requires forall n :: 0 <= n < |js| ==> js[n].id in jobs && jobs[js[n].id] == js[n]
    ensures MarkJobs(jobs, IdsOf(js[..i + 1]), now) == MarkJobs(jobs, IdsOf(js[..i]), now)[js[i].id := Marked(js[i], now)]
    ensures js[i].id !in IdsOf(js[..i])
    ensures MarkedAll(js[..i + 1], now) == MarkedAll(js[..i], now) + [Marked(js[i], now)]
  {
    assert js[..i + 1] == js[..i] + [js[i]];
    AppendPicked(js[..i], [js[i]], now);
    assert IdsOf([js[i]]) == {js[i].id};
    forall n | 0 <= n < i ensures js[..i][n].id != js[i].id {
      assert Before(js[n], js[i]);
    }
  }

  /** sort.Slice on IDs, ascending. */
  method SortIds(ids: seq<int>) returns (r: seq<int>)
    requires forall i, k :: 0 <= i < k < |ids| ==> ids[i] != ids[k]
    ensures forall i, k :: 0 <= i < k < |r| ==> r[i] < r[k]
    ensures |r| == |ids| && (forall x :: x in r <==> x in ids)
  {
    r := [];
    for i := 0 to |ids|
      invariant forall n, m :: 0 <= n < m < |r| ==> r[n] < r[m]
      invariant |r| == i && forall x :: x in r <==> x in ids[..i]
    {
      var k := 0;
      while k < |r| && r[k] < ids[i]
        invariant 0 <= k <= |r|
        invariant forall n :: 0 <= n < k ==> r[n] < ids[i]
      {
        k := k + 1;
      }
      assert ids[i] !in ids[..i];
      InsertId(r, k, ids[i]);
      r := r[..k] + [ids[i]] + r[k..];
      assert ids[..i + 1] == ids[..i] + [ids[i]];
    }
    assert ids[..|ids|] == ids;
  }

  lemma InsertId(r: seq<int>, k: nat, id: int)
    requires Ascending(r) && k <= |r| && id !in r
    requires (forall n :: 0 <= n < k ==> r[n] < id) && (k < |r| ==> r[k] >= id)
    ensures Ascending(r[..k] + [id] + r[k..])
    ensures forall x :: x in r[..k] + [id] + r[k..] <==> x in r || x == id
  {
    assert r == r[..k] + r[k..];
    assert k < |r| ==> r[k] != id;
    var r' := r[..k] + [id] + r[k..];
    forall n | 0 <= n < |r'| ensures r'[n] == if n < k then r[n] else if n == k then id else r[n - 1] {}
    forall x ensures x in r' <==> x in r || x == id {
      assert x in r <==> x in r[..k] || x in r[k..];
    }
  }

  ghost predicate Ascending(ids: seq<int>) {
    forall i, k :: 0 <= i < k < |ids| ==> ids[i] < ids[k]
  }

  lemma {:induction false} AllIds(ids: seq<int>, all: set<int>)
    requires Ascending(ids) && forall x :: x in ids <==> x in all
    ensures |ids| == |all|
    decreases |ids|
  {
    if ids == [] {
      assert forall x :: x in all ==> x in ids;
      assert all == {};
    } else {
      var n := |ids| - 1;
      var last := ids[n];
      assert forall x :: x in ids[..n] <==> x in all - {last} by {
        assert ids == ids[..n] + [last];
        forall x | x in ids[..n] ensures x != last {}
      }
      AllIds(ids[..n], all - {last});
    }
  }

  ghost function Firsts(ids: seq<int>, i: nat): set<int>
    requires i <= |ids|
  {
    set x | x in ids[..i]
  }

  lemma FirstsStep(jobs: map<int, Job>, ids: seq<int>, i: nat)
    requires i < |ids|
    ensures jobs - Firsts(ids, i + 1) == jobs - Firsts(ids, i) - {ids[i]}
  {
    assert ids[..i + 1] == ids[..i] + [ids[i]];
  }

  lemma FirstsNone(jobs: map<int, Job>, ids: seq<int>)
    ensures jobs - Firsts(ids, 0) == jobs
  {
  }

  lemma FirstsGone(s: StoreState, ids: seq<int>, i: nat, states: set<State>, cutoff: Instant)
    requires i <= |ids| && (forall x :: x in ids <==> x in Prunable(s, states, cutoff)) && StoreSpec.Valid(s)
    ensures var left := s.jobs - Firsts(ids, i);
      s.jobs.Keys - left.Keys == Firsts(ids, i) && StoreSpec.Valid(s.(jobs := left))
  {
    forall x | x in Firsts(ids, i) ensures x in s.jobs {
      assert x in ids;
    }
  }

  lemma RescueStart(s: StoreState, olderThan: Instant, now: Instant)
    requires StoreSpec.Valid(s)
    ensures RescueExcept(s, s.jobs.Keys, olderThan, now) == s.jobs
    ensures StoreSpec.Valid(RescueStep(s, olderThan, now))
  {
  }

  /** Visiting one job moves the pass on by that job. */
  lemma RescueVisit(s: StoreState, todo: set<int>, id: int, olderThan: Instant, now: Instant)
    requires todo <= s.jobs.Keys && id in todo
    ensures id in RescueExcept(s, todo, olderThan, now) && RescueExcept(s, todo, olderThan, now)[id] == s.jobs[id]
    ensures RescueExcept(s, todo - {id}, olderThan, now) ==
      RescueExcept(s, todo, olderThan, now)[id := RescuedJob(s.jobs[id], olderThan, now)]
  {
    hide RescuedJob;
  }

  lemma SameEntry(jobs: map<int, Job>, id: int)
    requires id in jobs
    ensures jobs[id := jobs[id]] == jobs
  {
  }

  lemma CountStart(s: StoreState, olderThan: Instant)
    ensures var saved, lost := Rescuable(s, olderThan), Doomed(s, olderThan);
      |saved - s.jobs.Keys| == |lost - s.jobs.Keys| == 0 && saved - {} == saved && lost - {} == lost
  {
    assert Rescuable(s, olderThan) - s.jobs.Keys == {} && Doomed(s, olderThan) - s.jobs.Keys == {};
  }

  lemma CountStep(s: StoreState, todo: set<int>, id: int, olderThan: Instant)
    requires id in todo && id in s.jobs
    ensures var j, rest := s.jobs[id], todo - {id};
      && |Rescuable(s, olderThan) - rest| ==
           |Rescuable(s, olderThan) - todo| + (if Stuck(j, olderThan) && j.attempt < j.maxAttempts then 1 else 0)
      && |Doomed(s, olderThan) - rest| ==
           |Doomed(s, olderThan) - todo| + (if Stuck(j, olderThan) && j.attempt >= j.maxAttempts then 1 else 0)
  {
    OneFewer(Rescuable(s, olderThan), todo, id);
    OneFewer(Doomed(s, olderThan), todo, id);
  }

  lemma OneFewer(all: set<int>, todo: set<int>, id: int)
    requires id in todo
    ensures |all - (todo - {id})| == |all - todo| + (if id in all then 1 else 0)
  {
    assert all - (todo - {id}) == (all - todo) + (if id in all then {id} else {});
  }

  /** The first i of the ascending prunable IDs are what a prune that stops there must remove. */
  lemma PrunedPrefix(ids: seq<int>, i: nat, all: set<int>, limit: int)
    requires Ascending(ids) && i <= |ids| && (forall x :: x in ids <==> x in all) && |ids| == |all|
    requires (i == |ids| && (limit > 0 ==> i <= limit)) || (limit > 0 && i == limit < |ids|)
    ensures Pruned(Firsts(ids, i), all, limit) && |Firsts(ids, i)| == i
  {
    var gone := Firsts(ids, i);
    AllIds(ids[..i], gone);
    if i == |ids| {
      assert ids[..i] == ids;
    }
    forall n | 0 <= n < i ensures ids[n] in gone {
      assert ids[..i][n] == ids[n];
    }
    forall a, b | a in gone && b in all && b !in gone ensures a < b {
      var m :| 0 <= m < i && ids[..i][m] == a;
      assert b in ids;
      var n :| 0 <= n < |ids| && ids[n] == b;
      assert ids[m] < ids[n];
    }
  }

  /** A prune removes a determined set: the order of the map walk does not show. */
  lemma PrunedUnique(g: set<int>, h: set<int>, all: set<int>, limit: int)
    requires Pruned(g, all, limit) && Pruned(h, all, limit)
    ensures g == h
  {
    Inhabited(g - h);
    Inhabited(h - g);
    SameSize(g, h);
    SameSize(h, g);
    assert g == (g - h) + (g * h) && h == (h - g) + (g * h);
  }

  lemma SameSize(a: set<int>, b: set<int>)
    ensures a <= b && |a| == |b| ==> a == b
  {
    assert a <= b ==> b == a + (b - a);
  }
}
