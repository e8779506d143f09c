/**
 Why Stop returns: after it, every step that is not a fresh tick, a client's or a repeated
 cancellation uses up work that is left, and while work is left there is such a step.
 */
module EngineStop {
  import opened StoreSpec
  import opened OwnerRuns
  import opened Engine
  import opened Sums

  /** Steps a queue and an attempt may still take, the steps of the jobs they hold included. */
  function QueueWork(s: Queue): int {
    (if s.looping then 1 else 0) +
    match s.dispatch
    case Idle => 0
    case Reserved(free) => 2 + 4 * free
    case Launching(pending) => 1 + 4 * |pending|
  }

  function AttemptWork(a: Attempt): int {
    match a.phase case Running => 3 case Stored => 2 case Freed => 1
  }

  function QueueWorks(e: Oban): map<string, int> {
    map q | q in e.queues :: QueueWork(e.queues[q])
  }

  function AttemptWorks(e: Oban): map<int, int> {
    map n | n in e.attempts :: AttemptWork(e.attempts[n])
  }

  ghost function Work(e: Oban): int {
    Sum(QueueWorks(e)) + Sum(AttemptWorks(e))
  }

  /** The steps of the engine's own goroutines, a new tick excepted. */
  predicate Winding(a: Action) {
    a.FetchJobs? || a.Launch? || a.EndDispatch? || a.Record? || a.Free? || a.Exit? || a.LoopExit?
  }

  lemma WorkLeft(e: Oban)
    requires Capacity(e)
    ensures Work(e) >= 0
  {
    hide Busy;
    var queues, attempts := QueueWorks(e), AttemptWorks(e);
    forall q | q in queues ensures queues[q] >= 0 {
      assert Room(e.queues[q], |Busy(e, q)|);
    }
    forall n | n in attempts ensures attempts[n] >= 0 {}
    SumAtLeastZero(queues);
    SumAtLeastZero(attempts);
  }

  lemma QueueChanged(e: Oban, e': Oban, q: string)
    requires q in e.queues && q in e'.queues && e'.queues == e.queues[q := e'.queues[q]]
    ensures Sum(QueueWorks(e')) == Sum(QueueWorks(e)) - QueueWork(e.queues[q]) + QueueWork(e'.queues[q])
  {
    hide QueueWork;
    assert QueueWorks(e') == QueueWorks(e)[q := QueueWork(e'.queues[q])];
    SumPut(QueueWorks(e), q, QueueWork(e'.queues[q]));
  }

  lemma AttemptChanged(e: Oban, e': Oban, n: int)
    requires n in e.attempts && n in e'.attempts && e'.attempts == e.attempts[n := e'.attempts[n]]
    ensures Sum(AttemptWorks(e')) == Sum(AttemptWorks(e)) - AttemptWork(e.attempts[n]) + AttemptWork(e'.attempts[n])
  {
    hide AttemptWork;
    assert AttemptWorks(e') == AttemptWorks(e)[n := AttemptWork(e'.attempts[n])];
    SumPut(AttemptWorks(e), n, AttemptWork(e'.attempts[n]));
  }

  lemma AttemptAdded(e: Oban, e': Oban, n: int)
    requires n !in e.attempts && n in e'.attempts && e'.attempts == e.attempts[n := e'.attempts[n]]
    ensures Sum(AttemptWorks(e')) == Sum(AttemptWorks(e)) + AttemptWork(e'.attempts[n])
  {
    hide AttemptWork;
    assert AttemptWorks(e') == AttemptWorks(e)[n := AttemptWork(e'.attempts[n])];
    SumNew(AttemptWorks(e), n, AttemptWork(e'.attempts[n]));
  }

  lemma AttemptGone(e: Oban, e': Oban, n: int)
    requires n in e.attempts && e'.attempts == e.attempts - {n}
    ensures Sum(AttemptWorks(e')) == Sum(AttemptWorks(e)) - AttemptWork(e.attempts[n])
  {
    hide AttemptWork;
    assert AttemptWorks(e') == AttemptWorks(e) - {n};
    SumRemove(AttemptWorks(e), n);
  }

  lemma QueueStep(e: Oban, a: Action)
    requires Valid(e.store) && Capacity(e) && Can(e, a) && (a.FetchJobs? || a.EndDispatch? || a.LoopExit?)
    ensures Work(Act(e, a)) < Work(e)
  {
    hide Valid, Sum, QueueWorks, FetchStep, Fetched, Busy;
    var e' := Act(e, a);
    assert AttemptWorks(e') == AttemptWorks(e);
    QueueChanged(e, e', a.queue);
    if a.FetchJobs? {
      assert Room(e.queues[a.queue], |Busy(e, a.queue)|);
      FetchedLength(e.store, a.queue, e.queues[a.queue].dispatch.free, a.now);
    }
  }

  lemma AttemptStep(e: Oban, a: Action)
    requires EngineInv(e) && Can(e, a) && (a.Launch? || a.Record? || a.Free? || a.Exit?)
    ensures Work(Act(e, a)) < Work(e)
  {
    hide Valid, Sum, FinishJob, Capacity, Current, AllOwned, Lifecycle;
    var e' := Act(e, a);
    match a {
      case Launch(q) =>
        QueueChanged(e, e', q);
        AttemptAdded(e, e', e.tickets);
      case Record(n, _, _, _) =>
        assert QueueWorks(e') == QueueWorks(e);
        AttemptChanged(e, e', n);
      case Free(n) =>
        QueueChanged(e, e', e.attempts[n].job.queue);
        AttemptChanged(e, e', n);
      case Exit(n) =>
        assert QueueWorks(e') == QueueWorks(e);
        AttemptGone(e, e', n);
    }
  }

  /** Every winding step uses up work. */
  lemma WindsDown(e: Oban, a: Action)
    requires EngineInv(e) && Can(e, a) && Winding(a)
    ensures Work(Act(e, a)) < Work(e)
  {
    hide Valid, Work, Can, Act, Capacity, Owners, AllOwned, Lifecycle;
    if a.FetchJobs? || a.EndDispatch? || a.LoopExit? {
      QueueStep(e, a);
    } else {
      AttemptStep(e, a);
    }
  }

  lemma LoopMoves(e: Oban, q: string) returns (a: Action)
    requires Capacity(e) && e.pollCancelled && q in e.queues && e.queues[q].looping
    ensures Can(e, a) && Winding(a)
  {
    hide Busy;
    assert Room(e.queues[q], |Busy(e, q)|);
    match e.queues[q].dispatch {
      case Idle => a := LoopExit(q);
      case Reserved(_) => a := FetchJobs(q, false, 0);
      case Launching(pending) => a := if pending == [] then EndDispatch(q) else Launch(q);
    }
  }

  lemma AttemptMoves(e: Oban, n: int) returns (a: Action)
    requires n in e.attempts && e.attempts[n].job.queue in e.queues
    ensures Can(e, a) && Winding(a)
  {
    match e.attempts[n].phase {
      case Running => a := Record(n, Succeeded, 0, 0);
      case Stored => a := Free(n);
      case Freed => a := Exit(n);
    }
  }

  /** Once stopped, the engine is never stuck: some winding step can be taken, or Stop can return. */
  lemma NeverStuck(e: Oban) returns (a: Action)
    requires EngineInv(e) && e.stopped
    ensures Can(e, a) && (Winding(a) || a.StopReturn?)
  {
    hide Valid, Capacity, Current, AllOwned, Winding;
    if q :| q in e.queues && e.queues[q].looping {
      a := LoopMoves(e, q);
    } else if n :| n in e.attempts {
      a := AttemptMoves(e, n);
    } else {
      NoAttempts(e.attempts);
      a := StopReturn;
    }
  }

  lemma NoAttempts(m: map<int, Attempt>)
    ensures (exists n :: n in m) || |m| == 0
  {
    if !exists n :: n in m {
      assert m == map[];
    }
  }

  /** states are what the engine goes through, from wherever it is. */
  ghost predicate Path(states: seq<Oban>, actions: seq<Action>) {
    && |states| == |actions| + 1
    && forall i :: 0 <= i < |actions| ==> Follows(states[i], actions[i], states[i + 1])
  }

  ghost predicate AllWinding(actions: seq<Action>) {
    forall i :: 0 <= i < |actions| ==> Winding(actions[i])
  }

  /** However its goroutines are scheduled, the engine winds down within the work it has left. */
  lemma {:induction false} WindingBound(states: seq<Oban>, actions: seq<Action>)
    requires Path(states, actions) && AllWinding(actions) && EngineInv(states[0])
    ensures |actions| <= Work(states[0])
    decreases |actions|
  {
    hide EngineInv, Work, Act, Can, Valid;
    if actions == [] {
      CapacityOf(states[0]);
      WorkLeft(states[0]);
    } else {
      var d, a, e := states[0], actions[0], states[1];
      assert Follows(d, a, e);
      EngineKeeps(d, a);
      WindsDown(d, a);
      forall i | 0 <= i < |actions[1..]| ensures Follows(states[1..][i], actions[1..][i], states[1..][i + 1]) {
        assert Follows(states[i + 1], actions[i + 1], states[i + 2]);
      }
      WindingBound(states[1..], actions[1..]);
    }
  }

  lemma CapacityOf(e: Oban)
    requires EngineInv(e)
    ensures Capacity(e)
  {
  }

  lemma StillStopped(e: Oban, a: Action)
    requires EngineInv(e) && Can(e, a) && (Winding(a) || a.StopReturn?)
    ensures Valid(e.store) && Act(e, a).stopped == e.stopped && (a.StopReturn? ==> Act(e, a).stopReturned)
  {
    hide Valid, FetchStep, Fetched, FinishJob, Capacity, Owners, AllOwned, Lifecycle;
  }

  lemma PathMore(e: Oban, a: Action, states: seq<Oban>, actions: seq<Action>)
    requires Path(states, actions) && Follows(e, a, states[0])
    ensures Path([e] + states, [a] + actions)
  {
    hide Follows;
  }

  /** From every state reached after Stop was called, the engine's own steps lead to its return. */
  lemma {:induction false} StopCanReturn(e: Oban) returns (states: seq<Oban>, actions: seq<Action>)
    requires EngineInv(e) && e.stopped
    ensures Path(states, actions + [StopReturn]) && states[0] == e && states[|states| - 1].stopReturned
    ensures AllWinding(actions)
    decreases Work(e)
  {
    hide EngineInv, Work, Act, Can, Winding, Valid;
    var a := NeverStuck(e);
    StillStopped(e, a);
    if a.StopReturn? {
      states, actions := [e, Act(e, a)], [];
    } else {
      var e' := Act(e, a);
      EngineKeeps(e, a);
      WindsDown(e, a);
      CapacityOf(e');
      WorkLeft(e');
      var rest, more := StopCanReturn(e');
      states, actions := [e] + rest, [a] + more;
      PathMore(e, a, rest, more + [StopReturn]);
      assert [a] + (more + [StopReturn]) == actions + [StopReturn];
    }
  }

  /** Stop returns: at any moment of any run at which it has been called, a continuation without new ticks ends in its return. */
  lemma StopReturns(past: seq<Oban>, done: seq<Action>, e: Oban) returns (states: seq<Oban>, actions: seq<Action>)
    requires EngineRun(past, done) && e in past && e.stopped
    ensures Path(states, actions + [StopReturn]) && states[0] == e && states[|states| - 1].stopReturned
    ensures AllWinding(actions)
  {
    hide EngineInv, EngineRun, Path;
    EveryMoment(past, done, e);
    states, actions := StopCanReturn(e);
  }
}
