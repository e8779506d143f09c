/**
 The two schedulers that pop due entries off the heap, enqueue them and put them
 back: CronPlugin (plugins.go) and the engine's runCron/fireDue (oban.go).
 Enqueueing is the list of periodics handed over, in order.
 */
module CronPlugin {
  import opened Options
  import opened Calendar
  import opened Cron
  import opened CronLaws
  import opened Periodic
  import HeapOrder

  // ---- One entry, seen alone ----

  /** An entry waits for its next fire time, or has been dropped. */
  datatype Slot = Dropped | Due(next: Instant)

  function Rescheduled(s: Schedule, now: Instant): Slot {
    if NextTime(s, now) == ZERO_TIME then Dropped else Due(NextTime(s, now))
  }

  predicate FiresNow(slot: Slot, now: Instant) { slot.Due? && slot.next <= now }

  function Polled(s: Schedule, slot: Slot, now: Instant): Slot {
    if FiresNow(slot, now) then Rescheduled(s, now) else slot
  }

  // ---- The entries a heap is built from ----

  ghost function Somes(made: seq<Option<CronEntry>>): set<CronEntry> {
    set o | o in made && o.Some? :: o.value
  }

  /** No entry stands in two places. */
  ghost predicate Apart(made: seq<Option<CronEntry>>) {
    forall i, k :: 0 <= i < k < |made| && made[i].Some? && made[k].Some? ==> made[i] != made[k]
  }

  /** made holds an entry of its own for each periodic that has a next time, in its place, and none for the others. */
  ghost predicate MadeFrom(given: seq<Option<Periodic>>, made: seq<Option<CronEntry>>, now: Instant) {
    && |made| == |given| && Apart(made)
    && (forall k :: 0 <= k < |given| ==>
          (made[k].Some? <==> given[k].Some? && Rescheduled(given[k].value.schedule, now).Due?))
    && (forall k :: 0 <= k < |given| && made[k].Some? ==> made[k].value.periodic == given[k].value)
  }

  lemma SomesMore(made: seq<Option<CronEntry>>, o: Option<CronEntry>)
    ensures Somes(made + [o]) == Somes(made) + (if o.Some? then {o.value} else {})
    ensures Apart(made) && (o.Some? ==> o.value !in Somes(made)) ==> Apart(made + [o])
  {
    var more := made + [o];
    forall e ensures e in Somes(more) <==> e in Somes(made) || (o.Some? && e == o.value) {
      assert Some(e) in more <==> Some(e) in made || Some(e) == o;
    }
    forall i | 0 <= i < |made| && made[i].Some? ensures made[i].value in Somes(made) {
      assert made[i] in made;
    }
  }

  /** The body of buildHeap's loop: push an entry for p, unless it has no schedule or no next time. */
  method AddEntry(h: CronHeap, p: Option<Periodic>, now: Instant) returns (ghost made: Option<CronEntry>)
    requires h.Valid()
    modifies h, h.Entries()`index
    ensures h.Valid() && h.Entries() == old(h.Entries()) + (if made.Some? then {made.value} else {})
    ensures made.Some? <==> p.Some? && Rescheduled(p.value.schedule, now).Due?
    ensures made.Some? ==> fresh(made.value) && made.value.periodic == p.value
    ensures made.Some? ==> Due(made.value.next) == Rescheduled(p.value.schedule, now)
  {
    hide NextTime;
    if p.None? {
      return None;
    }
    var next := Next(p.value.schedule, now);
    if next == ZERO_TIME {
      return None;
    }
    var e := new CronEntry(p.value, next);
    h.Push(e);
    made := Some(e);
  }

  class Plugin {
    const entries: seq<Option<Periodic>>
    var schedule: CronHeap?
    var enqueued: seq<Periodic>

    constructor (entries: seq<Option<Periodic>>)
      ensures this.entries == entries && schedule == null && enqueued == []
    {
      this.entries := entries;
      schedule := null;
      enqueued := [];
    }

    /** The state of an entry of the heap. */
    ghost function SlotOf(e: CronEntry): Slot
      reads this, schedule, e
    {
      if schedule != null && e in schedule.Entries() then Due(e.next) else Dropped
    }

    ghost function Waiting(): set<CronEntry>
      reads this, schedule
    {
      if schedule == null then {} else schedule.Entries()
    }

    /** Seed the heap; a periodic without a schedule (None) or without a next time is left out. */
    method BuildHeap(now: Instant) returns (ghost made: seq<Option<CronEntry>>)
      modifies `schedule
      ensures schedule != null && fresh(schedule) && schedule.Valid()
      ensures MadeFrom(entries, made, now) && Waiting() == Somes(made)
      ensures forall e :: e in Waiting() ==> fresh(e) && SlotOf(e) == Rescheduled(e.periodic.schedule, now)
    {
      hide NextTime, HeapOrder.Heap, Rescheduled;
      var h := new CronHeap();
      made := [];
      for i := 0 to |entries|
        invariant fresh(h) && h.Valid() && forall e :: e in h.Entries() ==> fresh(e)
        invariant h.Entries() == Somes(made) && MadeFrom(entries[..i], made, now)
        invariant forall e :: e in h.Entries() ==> Due(e.next) == Rescheduled(e.periodic.schedule, now)
      {
        ghost var o := AddEntry(h, entries[i], now);
        SomesMore(made, o);
        made := made + [o];
      }
      assert entries[..|entries|] == entries;
      h.Init();
      schedule := h;
    }

    /**
     Enqueue every entry whose time has come, earliest first and once each, and
     reschedule or drop it; the loop ends with every remaining entry in the future.
     */
    method FireDue(now: Instant) returns (ghost fired: seq<CronEntry>)
      requires schedule != null ==> schedule.Valid()
      modifies `enqueued, schedule, Waiting()
      ensures schedule == old(schedule) && (schedule != null ==> schedule.Valid())
      ensures Waiting() <= old(Waiting())
      ensures forall e :: e in old(Waiting()) ==>
        && (e in fired <==> FiresNow(Due(old(e.next)), now))
        && SlotOf(e) == Polled(e.periodic.schedule, Due(old(e.next)), now)
      ensures forall e :: e in Waiting() ==> e.next > now
      ensures forall e :: e in fired ==> e in old(Waiting())
      ensures forall i, k :: 0 <= i < k < |fired| ==> fired[i] != fired[k]
      ensures forall i, k :: 0 <= i < k < |fired| && fired[i] in old(Waiting()) && fired[k] in old(Waiting()) ==>
        old(fired[i].next) <= old(fired[k].next)
      ensures enqueued == old(enqueued) + PeriodicsOf(fired)
    {
      hide NextTime, CronHeap.Valid, Rescheduled;
      fired := [];
      if schedule == null {
        return;
      }
      ghost var all, left := schedule.Entries(), schedule.Entries();
      while |schedule.h| > 0 && !(schedule.h[0].next > now)
        invariant schedule == old(schedule) && schedule.Valid() && schedule.Entries() <= all
        invariant all == old(Waiting()) && left <= all && forall e :: e in all ==> (e in left <==> e !in fired)
        invariant forall e :: e in fired ==> e in all
        invariant forall e :: e in all - left ==>
          old(e.next) <= now && SlotOf(e) == Rescheduled(e.periodic.schedule, now) && (SlotOf(e).Due? ==> e.next > now)
        invariant forall e :: e in left ==> e in schedule.Entries() && e.next == old(e.next)
        invariant forall i, k :: 0 <= i < k < |fired| ==> fired[i] != fired[k]
        invariant forall i, k :: 0 <= i < k < |fired| && fired[i] in all && fired[k] in all ==>
          old(fired[i].next) <= old(fired[k].next)
        invariant forall f, e :: f in fired && f in all && e in left ==> old(f.next) <= old(e.next)
        invariant enqueued == old(enqueued) + PeriodicsOf(fired)
        decreases left
      {
        ghost var was := fired;
        ghost var entry := FireRoot(now);
        assert entry in left;
        fired, left := fired + [entry], left - {entry};
        assert forall e :: e in fired <==> e in was || e == entry;
        assert PeriodicsOf(fired) == PeriodicsOf(was) + [entry.periodic];
      }
      if |schedule.h| > 0 {
        schedule.Root();
      }
    }

    /** The body of fireDue's loop: pop the earliest entry, enqueue it, and reschedule or drop it. */
    method FireRoot(now: Instant) returns (ghost entry: CronEntry)
      requires schedule != null && schedule.Valid() && |schedule.h| > 0 && schedule.h[0].next <= now
      modifies `enqueued, schedule, schedule.Entries()
      ensures schedule == old(schedule) && schedule.Valid()
      ensures entry in old(schedule.Entries()) && old(entry.next) <= now
      ensures forall e :: e in old(schedule.Entries()) ==> old(entry.next) <= old(e.next)
      ensures forall e :: e in old(schedule.Entries()) && e != entry ==> e in schedule.Entries() && e.next == old(e.next)
      ensures schedule.Entries() <= old(schedule.Entries())
      ensures SlotOf(entry) == Rescheduled(entry.periodic.schedule, now) && (SlotOf(entry).Due? ==> entry.next > now)
      ensures enqueued == old(enqueued) + [entry.periodic]
    {
      hide NextTime;
      assert schedule.h[0] in schedule.Entries();
      var e := schedule.Pop();
      entry := e;
      enqueued := enqueued + [e.periodic];
      var next := Next(e.periodic.schedule, now);
      NextAhead(e.periodic.schedule, now);
      if next == ZERO_TIME {
        return;
      }
      e.next := next;
      schedule.Push(e);
    }
  }

  // ---- The engine's own scheduler, which never drops an entry ----

  /**
   The heap runCron starts from. Unlike the plugin's it holds an entry for every
   periodic, even one whose Next is zero, which is due at the first poll.
   */
  method EngineHeap(periodics: seq<Periodic>, now: Instant) returns (h: CronHeap, ghost made: seq<CronEntry>)
    ensures fresh(h) && h.Valid() && forall e :: e in h.Entries() ==> fresh(e)
    ensures h.Entries() == (set e | e in made)
    ensures |made| == |periodics| && (forall i, k :: 0 <= i < k < |made| ==> made[i] != made[k])
    ensures forall k :: 0 <= k < |made| ==>
      made[k].periodic == periodics[k] && made[k].next == NextTime(periodics[k].schedule, now)
  {
    hide NextTime, HeapOrder.Heap;
    h := new CronHeap();
    made := [];
    for i := 0 to |periodics|
      invariant fresh(h) && h.Valid() && forall e :: e in h.Entries() ==> fresh(e)
      invariant |made| == i && h.Entries() == set e | e in made
      invariant forall k, m :: 0 <= k < m < i ==> made[k] != made[m]
      invariant forall k :: 0 <= k < i ==>
        made[k].periodic == periodics[k] && made[k].next == NextTime(periodics[k].schedule, now)
    {
      var next := Next(periodics[i].schedule, now);
      var e := new CronEntry(periodics[i], next);
      ghost var was := made;
      h.Push(e);
      made := made + [e];
      assert forall f :: f in made <==> f in was || f == e;
    }
    h.Init();
  }

  /** Some due entry has no next time. */
  ghost predicate Stuck(h: CronHeap, now: Instant)
    reads h, h.h
  {
    exists e :: e in h.Entries() && e.next <= now && NextTime(e.periodic.schedule, now) == ZERO_TIME
  }

  /**
   The body of Oban.fireDue's loop: pop the earliest entry, enqueue it, and push it back
   with its next time. If some due entry has no next time, the loop is where it was.
   */
  method EngineFireRoot(h: CronHeap, now: Instant) returns (entry: CronEntry)
    requires h.Valid() && |h.h| > 0 && h.h[0].next <= now
    modifies h, h.Entries()
    ensures h.Valid() && h.Entries() == old(h.Entries()) && entry in h.Entries() && old(entry.next) <= now
    ensures forall e :: e in h.Entries() ==> old(entry.next) <= old(e.next)
    ensures forall e :: e in h.Entries() ==> e.next == if e == entry then NextTime(e.periodic.schedule, now) else old(e.next)
    ensures now >= ZERO_TIME && old(Stuck(h, now)) ==> |h.h| > 0 && h.h[0].next <= now && Stuck(h, now)
  {
    hide NextTime, HeapOrder.Heap;
    assert h.h[0] in h.Entries();
    entry := h.Pop();
    entry.next := Next(entry.periodic.schedule, now);
    h.Push(entry);
    if |h.h| > 0 {
      h.Root();
    }
  }

  /**
   Oban.fireDue. It comes to an end if no due entry is without a next time; otherwise
   every turn leaves it with a due root (EngineFireRoot).
   */
  method EngineFireDue(h: CronHeap, now: Instant) returns (enqueued: seq<Periodic>, ghost fired: seq<CronEntry>)
    requires h.Valid() && !Stuck(h, now)
    modifies h, h.Entries()
    ensures h.Valid() && h.Entries() == old(h.Entries())
    ensures forall e :: e in h.Entries() ==>
      && (e in fired <==> FiresNow(Due(old(e.next)), now))
      && Due(e.next) == Polled(e.periodic.schedule, Due(old(e.next)), now) && e.next > now
    ensures forall e :: e in fired ==> e in h.Entries()
    ensures forall i, k :: 0 <= i < k < |fired| ==> fired[i] != fired[k]
    ensures forall i, k :: 0 <= i < k < |fired| && fired[i] in h.Entries() && fired[k] in h.Entries() ==>
      old(fired[i].next) <= old(fired[k].next)
    ensures enqueued == PeriodicsOf(fired)
  {
    hide NextTime, CronHeap.Valid;
    fired, enqueued := [], [];
    ghost var all, left := h.Entries(), h.Entries();
    while |h.h| > 0 && !(h.h[0].next > now)
      invariant h.Valid() && h.Entries() == all == old(h.Entries()) && left <= all
      invariant forall e :: e in all ==> (e in left <==> e !in fired)
      invariant forall e :: e in fired ==> e in all
      invariant forall e :: e in all - left ==> old(e.next) <= now && e.next == NextTime(e.periodic.schedule, now) > now
      invariant forall e :: e in left ==> e.next == old(e.next)
      invariant forall i, k :: 0 <= i < k < |fired| ==> fired[i] != fired[k]
      invariant forall i, k :: 0 <= i < k < |fired| && fired[i] in all && fired[k] in all ==>
        old(fired[i].next) <= old(fired[k].next)
      invariant forall f, e :: f in fired && f in all && e in left ==> old(f.next) <= old(e.next)
      invariant enqueued == PeriodicsOf(fired)
      decreases left
    {
      ghost var was := fired;
      var entry := EngineFireRoot(h, now);
      assert entry in left;
      NextAhead(entry.periodic.schedule, now);
      fired, left := fired + [entry], left - {entry};
      assert forall e :: e in fired <==> e in was || e == entry;
      enqueued := enqueued + [entry.periodic];
      assert PeriodicsOf(fired) == PeriodicsOf(was) + [entry.periodic];
    }
    if |h.h| > 0 {
      h.Root();
    }
  }

  /** The time an entry is put back with is still due exactly when Next found none. */
  lemma StaysDue(s: Schedule, now: Instant)
    requires now >= ZERO_TIME
    ensures NextTime(s, now) <= now <==> NextTime(s, now) == ZERO_TIME
  {
    NextAhead(s, now);
  }

  ghost function PeriodicsOf(es: seq<CronEntry>): seq<Periodic> {
    seq(|es|, i requires 0 <= i < |es| => es[i].periodic)
  }

  lemma NextAhead(s: Schedule, now: Instant)
    ensures NextTime(s, now) != ZERO_TIME ==> NextTime(s, now) > now
  {
    NextCorrect(s, now);
  }

  // ---- Runs of polls ----

  /** next is the first matching minute after t. */
  ghost predicate FirstAfter(s: Schedule, t: Instant, next: Instant) {
    && t < next && Aligned(next) && Matches(s, next)
    && forall u :: t < u < next && Aligned(u) ==> !Matches(s, u)
  }

  /** An entry after setup at times[0] and polls at the later times. */
  function SlotAfter(s: Schedule, times: seq<Instant>): Slot
    requires times != []
  {
    var n := |times| - 1;
    if n == 0 then Rescheduled(s, times[0]) else Polled(s, SlotAfter(s, times[..n]), times[n])
  }

  /** Whether the last poll of times fires the entry. */
  predicate LastFires(s: Schedule, times: seq<Instant>)
    requires |times| > 1
  {
    FiresNow(SlotAfter(s, times[..|times| - 1]), times[|times| - 1])
  }

  ghost predicate Nondecreasing(times: seq<Instant>) {
    forall i, k :: 0 <= i <= k < |times| ==> times[i] <= times[k]
  }

  /** Between polls a waiting entry holds the first matching minute after the last poll. */
  lemma {:induction false} WaitsForFirst(s: Schedule, times: seq<Instant>)
    requires times != [] && Nondecreasing(times) && SlotAfter(s, times).Due?
    ensures FirstAfter(s, times[|times| - 1], SlotAfter(s, times).next)
    decreases |times|
  {
    hide NextTime, Matches, Aligned;
    var n := |times| - 1;
    NextCorrect(s, times[n]);
    if n == 0 || LastFires(s, times) {
    } else {
      WaitsForFirst(s, times[..n]);
    }
  }

  /**
   In any run of polls at nondecreasing times, an entry not yet dropped is enqueued at
   a poll exactly when some minute after the previous poll, up to this one, matches.
   */
  lemma FiresExactlyWhenDue(s: Schedule, times: seq<Instant>)
    requires |times| > 1 && Nondecreasing(times) && SlotAfter(s, times[..|times| - 1]).Due?
    ensures LastFires(s, times) <==>
      exists u :: times[|times| - 2] < u <= times[|times| - 1] && Aligned(u) && Matches(s, u)
  {
    hide NextTime, Matches, Aligned;
    var n := |times| - 1;
    WaitsForFirst(s, times[..n]);
    var next := SlotAfter(s, times[..n]).next;
    assert FirstAfter(s, times[n - 1], next);
  }

  /** An entry is dropped only by a poll after which nothing matches within Next's window. */
  lemma {:induction false} DroppedForGood(s: Schedule, times: seq<Instant>)
    requires times != [] && SlotAfter(s, times).Dropped? && forall i :: 0 <= i < |times| ==> times[i] >= ZERO_TIME
    ensures exists i :: 0 <= i < |times| && NoneAhead(s, times[i])
    decreases |times|
  {
    hide NextTime, Matches;
    var n := |times| - 1;
    NextCorrect(s, times[n]);
    if n > 0 && SlotAfter(s, times[..n]).Dropped? {
      DroppedForGood(s, times[..n]);
      var i :| 0 <= i < n && NoneAhead(s, times[..n][i]);
      assert NoneAhead(s, times[i]);
    } else {
      assert NoneAhead(s, times[n]);
    }
  }

  /** A schedule whose Next never runs out (see CronHorizon) is never dropped. */
  lemma {:induction false} NeverDropped(s: Schedule, times: seq<Instant>)
    requires times != [] && forall i :: 0 <= i < |times| ==> NextTime(s, times[i]) != ZERO_TIME
    ensures SlotAfter(s, times).Due?
    decreases |times|
  {
    hide NextTime;
    if |times| == 1 {
    } else {
      NeverDropped(s, times[..|times| - 1]);
    }
  }

  /** The minutes an entry was fired for, in order. */
  function FireMinutes(s: Schedule, times: seq<Instant>): seq<Instant>
    requires times != []
  {
    var n := |times| - 1;
    if n == 0 then []
    else if LastFires(s, times) then FireMinutes(s, times[..n]) + [SlotAfter(s, times[..n]).next]
    else FireMinutes(s, times[..n])
  }

  /** ms is strictly increasing, within (lo, hi], and every entry is a matching minute. */
  ghost predicate DistinctMatches(s: Schedule, ms: seq<Instant>, lo: Instant, hi: Instant) {
    && (forall i :: 0 <= i < |ms| ==> Aligned(ms[i]) && Matches(s, ms[i]) && lo < ms[i] <= hi)
    && (forall i, k :: 0 <= i < k < |ms| ==> ms[i] < ms[k])
  }

  lemma OneMoreMatch(s: Schedule, ms: seq<Instant>, lo: Instant, mid: Instant, hi: Instant, next: Instant)
    requires DistinctMatches(s, ms, lo, mid) && lo <= mid && FirstAfter(s, mid, next) && next <= hi
    ensures DistinctMatches(s, ms + [next], lo, hi)
  {
  }

  /** Each firing is for a matching minute of its own: no minute is fired twice. */
  lemma {:induction false} FiresOncePerMinute(s: Schedule, times: seq<Instant>)
    requires times != [] && Nondecreasing(times)
    ensures DistinctMatches(s, FireMinutes(s, times), times[0], times[|times| - 1])
    decreases |times|
  {
    hide NextTime, Matches, Aligned, FirstAfter;
    var n := |times| - 1;
    if n == 0 {
    } else {
      var before := times[..n];
      FiresOncePerMinute(s, before);
      assert times[0] <= times[n - 1] <= times[n];
      if LastFires(s, times) {
        WaitsForFirst(s, before);
        OneMoreMatch(s, FireMinutes(s, before), times[0], times[n - 1], times[n], SlotAfter(s, before).next);
      }
    }
  }

  // ---- Runs of the schedulers themselves ----

  ghost function Flat(fired: seq<seq<CronEntry>>): seq<CronEntry> {
    if fired == [] then [] else Flat(fired[..|fired| - 1]) + fired[|fired| - 1]
  }

  /** What a run of polls fired: nothing at setup, then at each poll just the entries that are due, once each. */
  ghost predicate FiredAsDue(all: set<CronEntry>, times: seq<Instant>, fired: seq<seq<CronEntry>>) {
    && |fired| == |times| > 0 && fired[0] == []
    && forall k :: 0 < k < |times| ==> FiredAt(all, times[..k + 1], fired[k])
  }

  ghost predicate FiredAt(all: set<CronEntry>, times: seq<Instant>, fired: seq<CronEntry>)
    requires |times| > 1
  {
    && (forall e :: e in fired ==> e in all)
    && (forall i, k :: 0 <= i < k < |fired| ==> fired[i] != fired[k])
    && (forall e :: e in all ==> (e in fired <==> LastFires(e.periodic.schedule, times)))
  }

  lemma {:induction false} FiredOnce(fired: seq<CronEntry>, e: CronEntry)
    requires forall i, k :: 0 <= i < k < |fired| ==> fired[i] != fired[k]
    ensures multiset(fired)[e] == if e in fired then 1 else 0
  {
    if fired == [] {
    } else {
      var n := |fired| - 1;
      assert fired == fired[..n] + [fired[n]];
      assert fired[n] !in fired[..n];
      FiredOnce(fired[..n], e);
    }
  }

  lemma FiredBefore(all: set<CronEntry>, times: seq<Instant>, fired: seq<seq<CronEntry>>)
    requires FiredAsDue(all, times, fired) && |times| > 1
    ensures FiredAsDue(all, times[..|times| - 1], fired[..|times| - 1])
  {
    hide FiredAt;
    var n := |times| - 1;
    forall k | 0 < k < n ensures FiredAt(all, times[..n][..k + 1], fired[..n][k]) {
      assert times[..n][..k + 1] == times[..k + 1];
    }
  }

  /** An entry is enqueued once for each of its fire minutes, which are distinct matching minutes. */
  lemma {:induction false} EnqueuedPerMinute(all: set<CronEntry>, times: seq<Instant>, fired: seq<seq<CronEntry>>, e: CronEntry)
    requires FiredAsDue(all, times, fired) && e in all
    ensures multiset(Flat(fired))[e] == |FireMinutes(e.periodic.schedule, times)|
    decreases |times|
  {
    hide LastFires;
    var n := |times| - 1;
    if n == 0 {
      assert fired == [[]];
      assert Flat(fired[..0]) == [];
    } else {
      FiredBefore(all, times, fired);
      EnqueuedPerMinute(all, times[..n], fired[..n], e);
      assert times[..n + 1] == times;
      FiredOnce(fired[n], e);
    }
  }

  ghost predicate MinuteDue(s: Schedule, t: Instant, u: Instant) {
    exists m :: t < m <= u && Aligned(m) && Matches(s, m)
  }

  /**
   What the whole run amounts to: at a poll, an entry not yet dropped is enqueued exactly
   when some minute since the previous poll matches, and a dropped one is not.
   */
  lemma EnqueuedExactlyWhenDue(all: set<CronEntry>, times: seq<Instant>, fired: seq<seq<CronEntry>>, k: nat, e: CronEntry)
    requires FiredAsDue(all, times, fired) && Nondecreasing(times) && 0 < k < |times| && e in all
    ensures e in fired[k] <==>
      SlotAfter(e.periodic.schedule, times[..k]).Due? && MinuteDue(e.periodic.schedule, times[k - 1], times[k])
  {
    hide SlotAfter, Matches, Aligned;
    var ts := times[..k + 1];
    assert ts[..k] == times[..k];
    assert FiredAt(all, ts, fired[k]);
    if SlotAfter(e.periodic.schedule, times[..k]).Due? {
      FiresExactlyWhenDue(e.periodic.schedule, ts);
    }
  }

  lemma FiredMore(all: set<CronEntry>, times: seq<Instant>, now: Instant, fired: seq<seq<CronEntry>>, last: seq<CronEntry>)
    requires FiredAsDue(all, times, fired) && FiredAt(all, times + [now], last)
    ensures FiredAsDue(all, times + [now], fired + [last])
    ensures PeriodicsOf(Flat(fired + [last])) == PeriodicsOf(Flat(fired)) + PeriodicsOf(last)
  {
    hide FiredAt;
    var more := times + [now];
    assert more[..|times| + 1] == more;
    forall k | 0 < k < |times| ensures FiredAt(all, more[..k + 1], (fired + [last])[k]) {
      assert more[..k + 1] == times[..k + 1];
    }
    assert (fired + [last])[..|fired|] == fired;
  }

  /** The entries of all stand where a run of polls at these times leaves them. */
  ghost predicate Standing(p: Plugin, all: set<CronEntry>, times: seq<Instant>)
    requires times != []
    reads p, p.schedule, all
  {
    p.Waiting() <= all && forall e :: e in all ==> p.SlotOf(e) == SlotAfter(e.periodic.schedule, times)
  }

  /** One tick moves every entry on by one poll. */
  method Tick(p: Plugin, ghost all: set<CronEntry>, ghost times: seq<Instant>, now: Instant)
    returns (ghost fired: seq<CronEntry>)
    requires times != [] && p.schedule != null && p.schedule.Valid() && Standing(p, all, times)
    modifies p`enqueued, p.schedule, p.Waiting()
    ensures p.schedule == old(p.schedule) && p.schedule.Valid()
    ensures Standing(p, all, times + [now]) && p.Waiting() <= old(p.Waiting())
    ensures FiredAt(all, times + [now], fired)
    ensures p.enqueued == old(p.enqueued) + PeriodicsOf(fired)
  {
    hide Rescheduled, CronHeap.Valid;
    assert (times + [now])[..|times|] == times;
    fired := p.FireDue(now);
  }

  lemma Seeded(p: Plugin, all: set<CronEntry>, now: Instant)
    requires p.Waiting() == all && forall e :: e in all ==> p.SlotOf(e) == Rescheduled(e.periodic.schedule, now)
    ensures Standing(p, all, [now])
  {
    hide Rescheduled;
  }

  /** CronPlugin's life: setup at times[0], then a tick at each later time. */
  method Polls(p: Plugin, times: seq<Instant>)
    returns (ghost made: seq<Option<CronEntry>>, ghost fired: seq<seq<CronEntry>>)
    requires times != []
    modifies p`schedule, p`enqueued
    ensures MadeFrom(p.entries, made, times[0])
    ensures FiredAsDue(Somes(made), times, fired)
    ensures Standing(p, Somes(made), times)
    ensures p.enqueued == old(p.enqueued) + PeriodicsOf(Flat(fired))
  {
    hide MadeFrom, Somes, Standing, CronHeap.Valid, FiredAt;
    made := p.BuildHeap(times[0]);
    ghost var all := Somes(made);
    fired := [[]];
    assert Flat(fired) == [] by { assert Flat(fired[..0]) == []; }
    assert times[..1] == [times[0]];
    Seeded(p, all, times[0]);
    for i := 1 to |times|
      invariant p.schedule != null && fresh(p.schedule) && p.schedule.Valid()
      invariant Standing(p, all, times[..i]) && fresh(p.Waiting())
      invariant FiredAsDue(all, times[..i], fired)
      invariant p.enqueued == old(p.enqueued) + PeriodicsOf(Flat(fired))
    {
      assert times[..i + 1] == times[..i] + [times[i]];
      ghost var last := Tick(p, all, times[..i], times[i]);
      FiredMore(all, times[..i], times[i], fired, last);
      fired := fired + [last];
    }
    assert times[..|times|] == times;
  }

  /** The engine's entries, none of which is ever dropped. */
  ghost predicate EngineStanding(h: CronHeap, times: seq<Instant>)
    requires times != []
    reads h, h.h
  {
    forall e :: e in h.Entries() ==> Due(e.next) == SlotAfter(e.periodic.schedule, times)
  }

  method EngineTick(h: CronHeap, ghost times: seq<Instant>, now: Instant)
    returns (enqueued: seq<Periodic>, ghost fired: seq<CronEntry>)
    requires times != [] && h.Valid() && EngineStanding(h, times)
    requires forall e :: e in h.Entries() ==> NextTime(e.periodic.schedule, now) != ZERO_TIME
    modifies h, h.Entries()
    ensures h.Valid() && h.Entries() == old(h.Entries()) && EngineStanding(h, times + [now])
    ensures FiredAt(h.Entries(), times + [now], fired) && enqueued == PeriodicsOf(fired)
  {
    hide NextTime, CronHeap.Valid, Rescheduled;
    assert (times + [now])[..|times|] == times;
    enqueued, fired := EngineFireDue(h, now);
  }

  /** The engine's scheduler: setup at times[0], then fireDue at each later time, while Next never runs out. */
  method EnginePolls(periodics: seq<Periodic>, times: seq<Instant>)
    returns (h: CronHeap, enqueued: seq<Periodic>, ghost made: seq<CronEntry>, ghost fired: seq<seq<CronEntry>>)
    requires times != []
    requires forall p, t :: p in periodics && t in times ==> NextTime(p.schedule, t) != ZERO_TIME
    ensures fresh(h) && h.Valid() && h.Entries() == (set e | e in made) && EngineStanding(h, times)
    ensures |made| == |periodics| && (forall i, k :: 0 <= i < k < |made| ==> made[i] != made[k])
    ensures forall k :: 0 <= k < |made| ==> made[k].periodic == periodics[k]
    ensures FiredAsDue(h.Entries(), times, fired) && enqueued == PeriodicsOf(Flat(fired))
  {
    hide NextTime, CronHeap.Valid, FiredAt, Polled;
    h, made := EngineHeap(periodics, times[0]);
    ghost var all := h.Entries();
    assert times[0] in times && forall e :: e in all ==> e.periodic in periodics;
    enqueued, fired := [], [[]];
    assert Flat(fired) == [] by { assert Flat(fired[..0]) == []; }
    assert times[..1] == [times[0]];
    for i := 1 to |times|
      invariant h.Valid() && h.Entries() == all && fresh(all) && EngineStanding(h, times[..i])
      invariant FiredAsDue(all, times[..i], fired) && enqueued == PeriodicsOf(Flat(fired))
    {
      assert times[..i + 1] == times[..i] + [times[i]] && times[i] in times;
      var more;
      ghost var last;
      more, last := EngineTick(h, times[..i], times[i]);
      FiredMore(all, times[..i], times[i], fired, last);
      enqueued, fired := enqueued + more, fired + [last];
    }
    assert times[..|times|] == times;
  }
}
