/**
 FindConflict (inmemory_caps.go) and Insert (insert.go) on the in-memory store.
 Tags and meta are not modelled.
 */
module Insert {
  import opened Options
  import opened Calendar
  import opened Jobs
  import opened StoreSpec
  import opened Store
  import opened UniqueKeys

  /** e stands in the way of inserting job under the rule. */
  ghost predicate Blocks(e: Job, job: Job, rule: UniqueBy, canon: string -> string, now: Instant) {
    && e.state in rule.States() && e.insertedAt >= now - rule.period
    && forall i :: 0 <= i < |rule.Fields()| ==> Agree(e, job, rule.Fields()[i], canon)
  }

  /** The blocking job with the lowest ID, or None if nothing blocks or the period is not positive. */
  method FindConflict(store: InMemoryStore, job: Job, given: UniqueBy, canon: string -> string, now: Instant)
    returns (r: Option<Job>)
    requires store.Valid()
    ensures given.period <= 0 ==> r.None?
    ensures r.Some? ==>
      && r.value.id in store.jobs && store.jobs[r.value.id] == r.value
      && Blocks(r.value, job, given, canon, now)
      && forall id :: id in store.jobs && id < r.value.id ==> !Blocks(store.jobs[id], job, given, canon, now)
    ensures r.None? && given.period > 0 ==>
      forall id :: id in store.jobs ==> !Blocks(store.jobs[id], job, given, canon, now)
  {
    hide Agree, IsKey, FieldParts;
    if given.period <= 0 {
      return None;
    }
    var rule := given.WithDefaults();
    forall e ensures Blocks(e, job, rule, canon, now) <==> Blocks(e, job, given, canon, now) {
      DefaultsSame(e, job, given, canon, now);
    }
    var cutoff := now - rule.period;
    var want := UniqueKey(job, rule, canon);
    var ids := SortedKeys(store);
    forall k | 0 <= k < |ids| ensures ids[k] in store.jobs {
      assert ids[k] in ids;
    }
    for i := 0 to |ids|
      invariant forall k :: 0 <= k < i ==> !Blocks(store.jobs[ids[k]], job, rule, canon, now)
    {
      var existing := store.jobs[ids[i]];
      if existing.state !in rule.States() {
        continue;
      }
      if existing.insertedAt < cutoff {
        continue;
      }
      var key := UniqueKey(existing, rule, canon);
      KeysMeanFields(existing, job, rule, canon, key, want);
      if key == want {
        assert Blocks(existing, job, rule, canon, now);
        forall id | id in store.jobs && id < ids[i] ensures !Blocks(store.jobs[id], job, given, canon, now) {
          assert id in ids;
          var k :| 0 <= k < |ids| && ids[k] == id;
          assert k < i;
        }
        return Some(existing);
      }
    }
    forall id | id in store.jobs ensures !Blocks(store.jobs[id], job, given, canon, now) {
      assert id in ids;
      var k :| 0 <= k < |ids| && ids[k] == id;
    }
    return None;
  }

  /** Filling in the defaults does not change the rule. */
  lemma DefaultsSame(e: Job, job: Job, rule: UniqueBy, canon: string -> string, now: Instant)
    ensures Blocks(e, job, rule.WithDefaults(), canon, now) <==> Blocks(e, job, rule, canon, now)
  {
    hide Agree;
    assert rule.WithDefaults().Fields() == rule.Fields() && rule.WithDefaults().States() == rule.States();
  }

  /** The default rule in the fields of jobs. */
  lemma BlocksByDefault(e: Job, job: Job, period: int, keys: seq<string>, canon: string -> string, now: Instant)
    ensures Blocks(e, job, UniqueBy(period, None, None, keys), canon, now) <==>
      && (e.state == Available || e.state == Scheduled || e.state == Executing || e.state == Retryable)
      && e.insertedAt >= now - period
      && e.worker == job.worker && e.queue == job.queue && canon(e.args) == canon(job.args)
  {
    var fields := UniqueBy(period, None, None, keys).Fields();
    assert fields[0] == UniqueWorker && fields[1] == UniqueQueue && fields[2] == UniqueArgs;
  }

  /** A rule for some states that compares one field only. */
  lemma BlocksByField(e: Job, job: Job, period: int, states: seq<State>, f: UniqueField, canon: string -> string, now: Instant)
    ensures Blocks(e, job, UniqueBy(period, Some(states), Some([f]), []), canon, now) <==>
      && e.state in states && e.insertedAt >= now - period
      && match f
         case UniqueWorker => e.worker == job.worker
         case UniqueQueue => e.queue == job.queue
         case UniqueArgs => canon(e.args) == canon(job.args)
         case UniquePriority => e.priority == job.priority
         case Unknown(_) => true
  {
    var rule := UniqueBy(period, Some(states), Some([f]), []);
    assert rule.Fields() == [f] && rule.Fields()[0] == f;
  }

  method SortedKeys(store: InMemoryStore) returns (ids: seq<int>)
    ensures forall i, k :: 0 <= i < k < |ids| ==> ids[i] < ids[k]
    ensures forall id :: id in ids <==> id in store.jobs
  {
    ids := [];
    var todo := store.jobs.Keys;
    while todo != {}
      invariant todo <= store.jobs.Keys
      invariant forall id :: id in ids <==> id in store.jobs && id !in todo
      invariant forall i, k :: 0 <= i < k < |ids| ==> ids[i] != ids[k]
      decreases todo
    {
      Inhabited(todo);
      var id :| id in todo;
      todo := todo - {id};
      ids := ids + [id];
    }
    ids := SortIds(ids);
  }

  datatype ReplaceField = ReplaceScheduledAt | ReplacePriority | ReplaceMaxAttempts | ReplaceArgs | ReplaceOther

  /** The conflict with the listed fields taken from the incoming job, and no other field changed. */
  function Replaced(conflict: Job, incoming: Job, fields: seq<ReplaceField>): Job {
    conflict.(
      scheduledAt := if ReplaceScheduledAt in fields then incoming.scheduledAt else conflict.scheduledAt,
      priority := if ReplacePriority in fields then incoming.priority else conflict.priority,
      maxAttempts := if ReplaceMaxAttempts in fields then incoming.maxAttempts else conflict.maxAttempts,
      args := if ReplaceArgs in fields then incoming.args else conflict.args)
  }

  /** insertApplyReplace, for the fields a job carries: it edits the clone it is given. */
  method ApplyReplace(conflict: Job, incoming: Job, fields: seq<ReplaceField>) returns (j: Job)
    ensures j == Replaced(conflict, incoming, fields)
  {
    j := conflict;
    for i := 0 to |fields|
      invariant j == Replaced(conflict, incoming, fields[..i])
    {
      assert fields[..i + 1] == fields[..i] + [fields[i]];
      match fields[i] {
        case ReplaceScheduledAt => j := j.(scheduledAt := incoming.scheduledAt);
        case ReplacePriority => j := j.(priority := incoming.priority);
        case ReplaceMaxAttempts => j := j.(maxAttempts := incoming.maxAttempts);
        case ReplaceArgs => j := j.(args := incoming.args);
        case ReplaceOther =>
      }
    }
    assert fields[..|fields|] == fields;
  }

  /** The two jobs have the same value in a listed field. */
  predicate SameField(a: Job, b: Job, f: ReplaceField) {
    match f
    case ReplaceScheduledAt => a.scheduledAt == b.scheduledAt
    case ReplacePriority => a.priority == b.priority
    case ReplaceMaxAttempts => a.maxAttempts == b.maxAttempts
    case ReplaceArgs => a.args == b.args
    case ReplaceOther => true
  }

  /** Editing the clone leaves no difference to the stored job exactly when the two jobs agree on every listed field. */
  lemma ReplaceShows(conflict: Job, incoming: Job, fields: seq<ReplaceField>)
    ensures Replaced(conflict, incoming, fields) == conflict <==>
      forall f :: f in fields ==> SameField(conflict, incoming, f)
  {
    var j := Replaced(conflict, incoming, fields);
    if j == conflict {
      forall f | f in fields ensures SameField(conflict, incoming, f) {
        match f
        case ReplaceScheduledAt => assert j.scheduledAt == incoming.scheduledAt;
        case ReplacePriority => assert j.priority == incoming.priority;
        case ReplaceMaxAttempts => assert j.maxAttempts == incoming.maxAttempts;
        case ReplaceArgs => assert j.args == incoming.args;
        case ReplaceOther =>
      }
    }
    if forall f :: f in fields ==> SameField(conflict, incoming, f) {
      assert ReplaceScheduledAt in fields ==> SameField(conflict, incoming, ReplaceScheduledAt);
      assert ReplacePriority in fields ==> SameField(conflict, incoming, ReplacePriority);
      assert ReplaceMaxAttempts in fields ==> SameField(conflict, incoming, ReplaceMaxAttempts);
      assert ReplaceArgs in fields ==> SameField(conflict, incoming, ReplaceArgs);
    }
  }

  datatype Inserted = BadPriority | Existing(job: Job) | New(job: Job) | Duplicate(job: Job)

  ghost predicate Conflicts(s: StoreState, job: Job, unique: Option<UniqueBy>, canon: string -> string, now: Instant) {
    unique.Some? && unique.value.period > 0 && exists id :: id in s.jobs && Blocks(s.jobs[id], job, unique.value, canon, now)
  }

  /**
   Insert. On a conflict nothing is stored, whatever replacements were asked for: they
   reach only the returned clone of the lowest blocking job. For a job without an insert
   time the clock is read twice: wall for the search, later by the store.
   */
  method Insert(store: InMemoryStore, job: Job, unique: Option<UniqueBy>, replace: seq<ReplaceField>,
                canon: string -> string, wall: Instant, later: Instant)
    returns (r: Inserted)
    requires store.Valid()
    modifies store
    ensures store.Valid()
    ensures r.BadPriority? <==> job.priority < 0 || job.priority > 9
    ensures r.Existing? <==> !r.BadPriority? && Conflicts(old(store.View()), job, unique, canon, InsertTime(job, wall))
    ensures r.BadPriority? || r.Existing? ==> store.View() == old(store.View())
    ensures r.Existing? ==> exists id ::
      && id in store.jobs && Blocks(store.jobs[id], job, unique.value, canon, InsertTime(job, wall))
      && (forall k :: k in store.jobs && k < id ==> !Blocks(store.jobs[k], job, unique.value, canon, InsertTime(job, wall)))
      && r.job == Replaced(store.jobs[id], job, replace)
      && (r.job == store.jobs[id] <==> forall f :: f in replace ==> SameField(store.jobs[id], job, f))
    ensures r.New? || r.Duplicate? ==> store.View() == EnqueueStep(old(store.View()), job, later)
    ensures r.Duplicate? <==>
      !r.BadPriority? && !r.Existing? && Blocked(old(store.View()), job, InsertTime(job, later))
  {
    hide Blocks, Replaced;
    if job.priority < 0 || job.priority > 9 {
      return BadPriority;
    }
    var now := InsertTime(job, wall);
    if unique.Some? && unique.value.period > 0 {
      var conflict := FindConflict(store, job, unique.value, canon, now);
      if conflict.Some? {
        var edited := ApplyReplace(conflict.value, job, replace);
        ReplaceShows(conflict.value, job, replace);
        return Existing(edited);
      }
    }
    var result, inserted := store.Enqueue(job, later);
    return if inserted then New(result) else Duplicate(result);
  }

  /** Asked to give a waiting job priority 0, Insert answers with a job of priority 0, and the stored one keeps its 5. */
  lemma ReplaceLost(canon: string -> string)
    ensures var stored := Resolved(NewJob("mailer", "{}", [WithPriority(5)]).value, 1, 1);
      var incoming := NewJob("mailer", "{}", []).value;
      && Blocks(stored, incoming, UniqueBy(1, None, None, []), canon, 2)
      && Replaced(stored, incoming, [ReplacePriority]).priority == 0 && stored.priority == 5
  {
    var opts := [WithPriority(5)];
    assert opts[..0] == [];
  }
}
