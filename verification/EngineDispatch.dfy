/** What dispatch does with a queue's free capacity: it asks for all of it, fills it, and launches in order. */
module EngineDispatch {
  import opened Calendar
  import opened Jobs
  import opened StoreSpec
  import opened StoreLaws
  import opened Engine

  /** A tick reserves all the capacity that no attempt holds, or leaves everything as it is. */
  lemma TickReserves(e: Oban, q: string)
    requires EngineInv(e) && Can(e, Tick(q))
    ensures var e', free := Act(e, Tick(q)), e.queues[q].capacity - |Busy(e, q)|;
      if free > 0 then
        e'.queues[q].dispatch == Reserved(free) && e' == e.(queues := e.queues[q := e.queues[q].(dispatch := Reserved(free))])
      else e' == e
  {
    hide Valid, Busy, Owners, AllOwned, Lifecycle;
    assert Room(e.queues[q], |Busy(e, q)|);
  }

  /** The fetch of a dispatch takes as many runnable jobs as were reserved for, the first ones first. */
  lemma DispatchFills(e: Oban, q: string, now: Instant)
    requires EngineInv(e) && Can(e, FetchJobs(q, true, now))
    ensures var d, free, n := Act(e, FetchJobs(q, true, now)).queues[q].dispatch, e.queues[q].dispatch.free,
                              |RunnableIds(e.store, q, now)|;
      && d.Launching? && |d.pending| == (if free < n then free else n)
      && (forall i, k :: 0 <= i < k < |d.pending| ==> GoesFirst(d.pending[i], d.pending[k]))
      && (forall i :: 0 <= i < |d.pending| ==>
            d.pending[i].id in e.store.jobs && Runnable(e.store.jobs[d.pending[i].id], q, now))
  {
    hide Valid, Busy, Owners, AllOwned, Lifecycle, Fetched, FetchStep, RunnableIds, GoesFirst, Runnable;
    assert Room(e.queues[q], |Busy(e, q)|);
    FetchCount(e.store, q, e.queues[q].dispatch.free, now);
    FetchHandsOut(e.store, q, e.queues[q].dispatch.free, now);
  }

  /** From a new engine, Start, a tick and a fetch bring the queue its first jobs, up to its concurrency. */
  lemma FirstDispatch(e: Oban, q: string, now: Instant)
    requires Fresh(e) && q in e.queues
    ensures Can(e, Start)
    ensures var e1 := Act(e, Start); Can(e1, Tick(q)) && e1.store == e.store
    ensures var e2 := Act(Act(e, Start), Tick(q)); Can(e2, FetchJobs(q, true, now)) && e2.store == e.store
    ensures var d, n := Act(Act(Act(e, Start), Tick(q)), FetchJobs(q, true, now)).queues[q].dispatch, |RunnableIds(e.store, q, now)|;
      d.Launching? && |d.pending| == if e.queues[q].capacity < n then e.queues[q].capacity else n
  {
    hide Valid, RunnableIds, Fetched, FetchStep;
    FetchCount(e.store, q, e.queues[q].capacity, now);
  }

  // ---- Launching in order ----

  ghost predicate InOrder(js: seq<Job>) {
    forall i, k :: 0 <= i < k < |js| ==> GoesFirst(js[i], js[k])
  }

  ghost predicate PendingInOrder(e: Oban) {
    forall q :: Pending(e, q) ==> InOrder(e.queues[q].dispatch.pending)
  }

  lemma LaunchKeepsOrder(e: Oban, q: string)
    requires Valid(e.store) && Can(e, Launch(q)) && PendingInOrder(e)
    ensures PendingInOrder(Act(e, Launch(q)))
  {
    hide Valid, GoesFirst;
    var e' := Act(e, Launch(q));
    assert Pending(e, q);
    forall p | Pending(e', p) ensures InOrder(e'.queues[p].dispatch.pending) {
      assert Pending(e, p);
    }
  }

  lemma FetchKeepsOrder(e: Oban, q: string, now: Instant)
    requires Valid(e.store) && Can(e, FetchJobs(q, true, now)) && PendingInOrder(e)
    ensures PendingInOrder(Act(e, FetchJobs(q, true, now)))
  {
    hide Valid, GoesFirst, Fetched, FetchStep, Runnable;
    var e' := Act(e, FetchJobs(q, true, now));
    FetchHandsOut(e.store, q, e.queues[q].dispatch.free, now);
    forall p | Pending(e', p) ensures InOrder(e'.queues[p].dispatch.pending) {
      assert p != q ==> Pending(e, p);
    }
  }

  lemma OrderKept(e: Oban, a: Action)
    requires Valid(e.store) && Can(e, a) && PendingInOrder(e)
    ensures PendingInOrder(Act(e, a))
  {
    if a.Launch? {
      LaunchKeepsOrder(e, a.queue);
    } else if a.FetchJobs? && a.ok {
      FetchKeepsOrder(e, a.queue, a.now);
    } else {
      hide Valid, Act, Can, InOrder;
      forall q | Pending(Act(e, a), q) ensures InOrder(Act(e, a).queues[q].dispatch.pending) {
        PendingSame(e, a, q);
      }
    }
  }

  lemma {:induction false} AlwaysInOrder(states: seq<Oban>, actions: seq<Action>, k: nat)
    requires EngineRun(states, actions) && k < |states|
    ensures PendingInOrder(states[k])
  {
    hide Act, Can, Valid, InOrder;
    if k == 0 {
    } else {
      AlwaysInOrder(states, actions, k - 1);
      assert Follows(states[k - 1], actions[k - 1], states[k]);
      OrderKept(states[k - 1], actions[k - 1]);
    }
  }

  /** Whenever a job is launched, it goes before every job of its batch still waiting. */
  lemma LaunchesInOrder(states: seq<Oban>, actions: seq<Action>, k: nat, q: string, i: nat)
    requires EngineRun(states, actions) && k < |actions| && actions[k] == Launch(q)
    requires Pending(states[k + 1], q) && i < |states[k + 1].queues[q].dispatch.pending|
    ensures var n := states[k].tickets;
      && n in states[k + 1].attempts && states[k + 1].attempts[n].phase.Running?
      && GoesFirst(states[k + 1].attempts[n].job, states[k + 1].queues[q].dispatch.pending[i])
  {
    AlwaysInOrder(states, actions, k);
    var e := states[k];
    assert Follows(e, Launch(q), states[k + 1]) && Pending(e, q);
    hide Valid, GoesFirst, EngineRun;
    assert InOrder(e.queues[q].dispatch.pending);
    assert states[k + 1].queues[q].dispatch.pending[i] == e.queues[q].dispatch.pending[i + 1];
  }
}
