/**
 The token bucket (ratelimit.go), in exact arithmetic: the float64 tokens and rate
 are reals, so rounding is not part of this model.
 */
module RateLimit {
  import opened Calendar

  /** The limiter's fixed parameters and its state, as a value. */
  datatype Bucket = Bucket(rate: real, interval: int, tokens: real, last: Instant)

  predicate WellFormed(b: Bucket) {
    b.rate > 0.0 && b.interval > 0 && 0.0 <= b.tokens <= b.rate
  }

  /** Tokens accrued over an elapsed time. */
  function Accrued(b: Bucket, elapsed: int): real
    requires b.interval > 0
  {
    b.rate * (elapsed as real / b.interval as real)
  }

  function RMin(a: real, b: real): real { if a < b then a else b }

  function Refilled(b: Bucket, now: Instant): Bucket
    requires WellFormed(b)
  {
    if now - b.last <= 0 then b
    else b.(last := now, tokens := RMin(b.rate, b.tokens + Accrued(b, now - b.last)))
  }

  datatype Call = AllowN(n: int, at: Instant) | Tokens(at: Instant)

  predicate Admits(b: Bucket, c: Call)
    requires WellFormed(b)
  {
    c.AllowN? && (c.n <= 0 || Refilled(b, c.at).tokens >= c.n as real)
  }

  /** Units a call takes out of the bucket. */
  function Taken(b: Bucket, c: Call): int
    requires WellFormed(b)
  {
    if c.AllowN? && c.n > 0 && Admits(b, c) then c.n else 0
  }

  function After(b: Bucket, c: Call): Bucket
    requires WellFormed(b)
  {
    if c.AllowN? && c.n <= 0 then b
    else
      var r := Refilled(b, c.at);
      r.(tokens := r.tokens - Taken(b, c) as real)
  }

  class RateLimiter {
    const rate: real
    const interval: int
    var tokens: real
    var last: Instant

    ghost function View(): Bucket
      reads this
    {
      Bucket(rate, interval, tokens, last)
    }

    ghost predicate Valid()
      reads this
    {
      WellFormed(View())
    }

    /** NewRateLimiter panics on a non-positive rate or interval; the bucket starts full. */
    constructor (rate: int, interval: int, now: Instant)
      requires rate > 0 && interval > 0
      ensures Valid() && View() == Bucket(rate as real, interval, rate as real, now)
    {
      this.rate := rate as real;
      this.interval := interval;
      tokens := rate as real;
      last := now;
    }

    method Refill(now: Instant)
      requires Valid()
      modifies this
      ensures Valid() && View() == Refilled(old(View()), now)
    {
      var elapsed := now - last;
      if elapsed <= 0 {
        return;
      }
      AccruedGrows(View(), elapsed);
      last := now;
      tokens := tokens + rate * (elapsed as real / interval as real);
      if tokens > rate {
        tokens := rate;
      }
    }

    method AllowN(n: int, now: Instant) returns (ok: bool)
      requires Valid()
      modifies this
      ensures Valid() && View() == After(old(View()), Call.AllowN(n, now))
      ensures ok <==> Admits(old(View()), Call.AllowN(n, now))
    {
      if n <= 0 {
        return true;
      }
      Refill(now);
      if tokens >= n as real {
        tokens := tokens - n as real;
        return true;
      }
      return false;
    }

    method Tokens(now: Instant) returns (whole: int)
      requires Valid()
      modifies this
      ensures Valid() && View() == After(old(View()), Call.Tokens(now))
      ensures whole as real <= View().tokens < whole as real + 1.0
    {
      Refill(now);
      return tokens.Floor;
    }
  }

  // ---- Facts about refilling ----

  lemma AccruedGrows(b: Bucket, elapsed: int)
    requires b.rate > 0.0 && b.interval > 0 && elapsed >= 0
    ensures Accrued(b, elapsed) >= 0.0
  {
    assert elapsed as real / b.interval as real >= 0.0;
  }

  lemma AccruedAdds(b: Bucket, x: int, y: int)
    requires b.interval > 0
    ensures Accrued(b, x + y) == Accrued(b, x) + Accrued(b, y)
  {
    var i := b.interval as real;
    assert (x + y) as real / i == x as real / i + y as real / i;
  }

  lemma RefillWellFormed(b: Bucket, now: Instant)
    requires WellFormed(b)
    ensures WellFormed(Refilled(b, now)) && Refilled(b, now).rate == b.rate && Refilled(b, now).interval == b.interval
  {
    if now > b.last {
      AccruedGrows(b, now - b.last);
    }
  }

  /** Tokens stay between zero and the rate, whatever is called and whatever the clock does. */
  lemma AfterWellFormed(b: Bucket, c: Call)
    requires WellFormed(b)
    ensures WellFormed(After(b, c)) && After(b, c).rate == b.rate && After(b, c).interval == b.interval
  {
    RefillWellFormed(b, c.at);
  }

  /** Capped refills compose: refilling on the way changes nothing. */
  lemma RefillComposes(b: Bucket, t: Instant, u: Instant)
    requires WellFormed(b) && t <= u
    ensures WellFormed(Refilled(b, t)) && Refilled(Refilled(b, t), u) == Refilled(b, u)
  {
    hide Accrued;
    RefillWellFormed(b, t);
    if b.last < t < u {
      AccruedAdds(b, t - b.last, u - t);
      AccruedGrows(b, t - b.last);
      AccruedGrows(b, u - t);
      AccruedSame(b, Refilled(b, t), u - t);
    }
  }

  lemma AccruedSame(b: Bucket, c: Bucket, elapsed: int)
    requires b.interval > 0 && c.interval == b.interval && c.rate == b.rate
    ensures Accrued(b, elapsed) == Accrued(c, elapsed)
  {
  }

  // ---- Histories ----

  function RunCalls(b: Bucket, calls: seq<Call>): (r: Bucket)
    requires WellFormed(b)
    ensures WellFormed(r) && r.rate == b.rate && r.interval == b.interval
    decreases |calls|
  {
    if calls == [] then b
    else
      AfterWellFormed(b, calls[0]);
      RunCalls(After(b, calls[0]), calls[1..])
  }

  function Admitted(b: Bucket, calls: seq<Call>): int
    requires WellFormed(b)
    decreases |calls|
  {
    if calls == [] then 0
    else
      AfterWellFormed(b, calls[0]);
      Taken(b, calls[0]) + Admitted(After(b, calls[0]), calls[1..])
  }

  /** Whether each call is admitted, in order; a Tokens call never is. */
  function Decisions(b: Bucket, calls: seq<Call>): (r: seq<bool>)
    requires WellFormed(b)
    ensures |r| == |calls|
    decreases |calls|
  {
    if calls == [] then []
    else
      AfterWellFormed(b, calls[0]);
      [Admits(b, calls[0])] + Decisions(After(b, calls[0]), calls[1..])
  }

  /** Every call comes no earlier than t and no later than u. */
  ghost predicate Within(calls: seq<Call>, t: Instant, u: Instant) {
    forall i :: 0 <= i < |calls| ==> t <= calls[i].at <= u
  }

  ghost predicate Chronological(calls: seq<Call>) {
    forall i, k :: 0 <= i < k < |calls| ==> calls[i].at <= calls[k].at
  }

  /** Tokens taken are paid for by the tokens at the start and the time up to u. */
  lemma {:induction false} Budget(b: Bucket, calls: seq<Call>, u: Instant)
    requires WellFormed(b) && b.last <= u && forall i :: 0 <= i < |calls| ==> calls[i].at <= u
    ensures Admitted(b, calls) as real <= b.tokens + Accrued(b, u - b.last)
    decreases |calls|
  {
    hide Accrued;
    if calls == [] {
      AccruedGrows(b, u - b.last);
    } else {
      var c := calls[0];
      var b' := After(b, c);
      AfterWellFormed(b, c);
      Budget(b', calls[1..], u);
      AccruedSame(b, b', u - b'.last);
      if b'.last > b.last {
        AccruedAdds(b, b'.last - b.last, u - b'.last);
      }
    }
  }

  /**
   In any run, from any reachable state and for any clock, the units admitted by
   calls whose times lie in a window of length T are at most rate + rate*T/interval.
   */
  lemma WindowBound(b: Bucket, calls: seq<Call>, t: Instant, u: Instant)
    requires WellFormed(b) && t <= u && Within(calls, t, u)
    ensures Admitted(b, calls) as real <= b.rate + Accrued(b, u - t)
    ensures Accrued(b, u - t) == b.rate * ((u - t) as real / b.interval as real)
  {
    assert Accrued(b, u - t) == b.rate * ((u - t) as real / b.interval as real);
    hide Accrued;
    AccruedGrows(b, u - t);
    if b.last <= u {
      var start := Refilled(b, t);
      RefillWellFormed(b, t);
      AdmittedAfterRefill(b, t, calls);
      Budget(start, calls, u);
      AccruedSame(b, start, u - start.last);
      AccruedAdds(b, start.last - t, u - start.last);
      AccruedGrows(b, start.last - t);
    } else {
      NoRefill(b, calls, u);
    }
  }

  /** The same for a new limiter: after any history, however the clock ran, a window admits no more than that. */
  lemma NewLimiterWindow(rate: int, interval: int, start: Instant, before: seq<Call>, inside: seq<Call>, t: Instant, u: Instant)
    requires rate > 0 && interval > 0 && t <= u && Within(inside, t, u)
    ensures var b := RunCalls(Bucket(rate as real, interval, rate as real, start), before);
      Admitted(b, inside) as real <= rate as real + rate as real * ((u - t) as real / interval as real)
  {
    hide RunCalls, Admitted, Accrued;
    var b := RunCalls(Bucket(rate as real, interval, rate as real, start), before);
    WindowBound(b, inside, t, u);
  }

  /** Before the bucket's own time nothing is refilled, so at most its tokens are taken. */
  lemma {:induction false} NoRefill(b: Bucket, calls: seq<Call>, u: Instant)
    requires WellFormed(b) && u <= b.last && forall i :: 0 <= i < |calls| ==> calls[i].at <= u
    ensures Admitted(b, calls) as real <= b.tokens
    decreases |calls|
  {
    if calls == [] {
    } else {
      AfterWellFormed(b, calls[0]);
      NoRefill(After(b, calls[0]), calls[1..], u);
    }
  }

  /** Refilling first, at a time no later than every call, changes no decision. */
  lemma {:induction false} SameAfterRefill(b: Bucket, t: Instant, calls: seq<Call>)
    requires WellFormed(b) && forall i :: 0 <= i < |calls| ==> t <= calls[i].at
    ensures WellFormed(Refilled(b, t))
    ensures Admitted(Refilled(b, t), calls) == Admitted(b, calls)
    ensures Decisions(Refilled(b, t), calls) == Decisions(b, calls)
    decreases |calls|
  {
    hide Accrued, Refilled;
    RefillWellFormed(b, t);
    if calls == [] {
    } else {
      var c := calls[0];
      RefillComposes(b, t, c.at);
      if c.AllowN? && c.n <= 0 {
        SameAfterRefill(b, t, calls[1..]);
      }
    }
  }

  lemma AdmittedAfterRefill(b: Bucket, t: Instant, calls: seq<Call>)
    requires WellFormed(b) && forall i :: 0 <= i < |calls| ==> t <= calls[i].at
    ensures WellFormed(Refilled(b, t)) && Admitted(Refilled(b, t), calls) == Admitted(b, calls)
  {
    SameAfterRefill(b, t, calls);
  }

  /** A call that only looks: Tokens, or an AllowN that is denied. */
  predicate Looks(b: Bucket, c: Call)
    requires WellFormed(b)
  {
    c.Tokens? || !Admits(b, c)
  }

  /** Leaving one looking call out changes no later decision. */
  lemma LookDropped(b: Bucket, look: Call, later: seq<Call>)
    requires WellFormed(b) && Looks(b, look) && forall i :: 0 <= i < |later| ==> look.at <= later[i].at
    ensures WellFormed(After(b, look))
    ensures Decisions(After(b, look), later) == Decisions(b, later)
    ensures Admitted(After(b, look), later) == Admitted(b, later)
  {
    hide Decisions, Admitted;
    AfterWellFormed(b, look);
    SameAfterRefill(b, look.at, later);
    assert After(b, look) == Refilled(b, look.at);
  }

  /** The elements of xs at the places marked in keep. */
  function Filter<T>(xs: seq<T>, keep: seq<bool>): (r: seq<T>)
    requires |xs| == |keep|
    ensures forall x :: x in r ==> x in xs
    decreases |xs|
  {
    if xs == [] then []
    else (if keep[0] then [xs[0]] else []) + Filter(xs[1..], keep[1..])
  }

  /**
   Leaving any set of looking calls out of a chronological history, or putting them in,
   changes no decision on the other calls and no unit admitted.
   */
  lemma {:induction false} LookingChangesNothing(b: Bucket, calls: seq<Call>, keep: seq<bool>)
    requires WellFormed(b) && Chronological(calls) && |keep| == |calls|
    requires forall i :: 0 <= i < |calls| && !keep[i] ==> calls[i].Tokens? || !Decisions(b, calls)[i]
    ensures Decisions(b, Filter(calls, keep)) == Filter(Decisions(b, calls), keep)
    ensures Admitted(b, Filter(calls, keep)) == Admitted(b, calls)
    decreases |calls|
  {
    hide Admits, After, Taken;
    if calls == [] {
    } else {
      var c, rest, marks := calls[0], calls[1..], keep[1..];
      var b', kept := After(b, c), Filter(rest, marks);
      AfterWellFormed(b, c);
      DecisionsTail(b, calls);
      LookingChangesNothing(b', rest, marks);
      assert Filter(Decisions(b, calls), keep) == (if keep[0] then [Admits(b, c)] else []) + Filter(Decisions(b', rest), marks);
      if keep[0] {
        var f := Filter(calls, keep);
        assert f == [c] + kept && f[1..] == kept;
      } else {
        forall i | 0 <= i < |kept| ensures c.at <= kept[i].at {
          assert kept[i] in rest;
        }
        assert Filter(calls, keep) == kept;
        LookDropped(b, c, kept);
        LookTakesNothing(b, c);
      }
    }
  }

  lemma DecisionsTail(b: Bucket, calls: seq<Call>)
    requires WellFormed(b) && calls != []
    ensures WellFormed(After(b, calls[0]))
    ensures Decisions(b, calls)[0] == Admits(b, calls[0])
    ensures Decisions(b, calls)[1..] == Decisions(After(b, calls[0]), calls[1..])
  {
    hide Admits, After;
    AfterWellFormed(b, calls[0]);
  }

  lemma LookTakesNothing(b: Bucket, look: Call)
    requires WellFormed(b) && Looks(b, look)
    ensures Taken(b, look) == 0
  {
  }

  predicate Unmoved(b: Bucket, look: Call, next: Call)
    requires WellFormed(b)
  {
    AfterWellFormed(b, look);
    Decisions(After(b, look), [next]) == Decisions(b, [next])
  }

  /** Looking is without effect on a call, for every limiter and every amount, exactly when the clock has not run backwards. */
  lemma LookingExact(at: Instant, t: Instant)
    ensures (forall b: Bucket, n: int :: WellFormed(b) ==> Unmoved(b, Tokens(at), AllowN(n, t))) <==> at <= t
  {
    if at <= t {
      forall b: Bucket, n: int | WellFormed(b) ensures Unmoved(b, Tokens(at), AllowN(n, t)) {
        LookDropped(b, Tokens(at), [AllowN(n, t)]);
      }
    } else {
      LookingBackwards(at, t);
    }
  }

  /** A bucket of rate one fills up in just its interval. */
  lemma OneUnit(interval: int)
    requires interval > 0
    ensures forall t, last :: Accrued(Bucket(1.0, interval, t, last), interval) == 1.0
    ensures forall t, last :: Accrued(Bucket(1.0, interval, t, last), 0) == 0.0
  {
    assert interval as real / interval as real == 1.0;
  }

  /** With a clock that runs backwards looking can matter: it credits tokens for the later time. */
  lemma LookingBackwards(at: Instant, t: Instant)
    requires t < at
    ensures var b := Bucket(1.0, at - t, 0.0, t);
      WellFormed(b) && !Admits(b, AllowN(1, t)) && !Unmoved(b, Tokens(at), AllowN(1, t))
  {
    var b := Bucket(1.0, at - t, 0.0, t);
    OneUnit(at - t);
    hide Accrued;
    var b' := After(b, Tokens(at));
    assert b' == Bucket(1.0, at - t, 1.0, at);
    assert Admits(b', AllowN(1, t)) && !Admits(b, AllowN(1, t));
    assert Decisions(b', [AllowN(1, t)])[0] != Decisions(b, [AllowN(1, t)])[0];
  }

  // ---- What is admitted for sure ----

  /** The tokens at hand at a time, in numbers. */
  lemma TokensAt(b: Bucket, t: Instant)
    requires WellFormed(b)
    ensures var full := b.tokens + b.rate * ((t - b.last) as real / b.interval as real);
      Refilled(b, t).tokens == if t <= b.last then b.tokens else if b.rate < full then b.rate else full
  {
  }

  /** An admitted call takes its amount and nothing more; a denied one takes nothing. */
  lemma CallTakes(b: Bucket, n: int, t: Instant)
    requires WellFormed(b) && n > 0
    ensures Admits(b, AllowN(n, t)) <==> n as real <= Refilled(b, t).tokens
    ensures After(b, AllowN(n, t)).tokens == Refilled(b, t).tokens - (if n as real <= Refilled(b, t).tokens then n as real else 0.0)
    ensures WellFormed(After(b, AllowN(n, t))) && Refilled(After(b, AllowN(n, t)), t) == After(b, AllowN(n, t))
  {
    hide Accrued;
    AfterWellFormed(b, AllowN(n, t));
  }

  /** What the calls ask for; an amount that is not positive asks for nothing. */
  function Asked(calls: seq<Call>): int
    requires forall i :: 0 <= i < |calls| ==> calls[i].AllowN?
  {
    if calls == [] then 0 else (if calls[0].n > 0 then calls[0].n else 0) + Asked(calls[1..])
  }

  ghost predicate AtOnce(calls: seq<Call>, t: Instant) {
    forall i :: 0 <= i < |calls| ==> calls[i].AllowN? && calls[i].at == t
  }

  lemma {:induction false} AskedAtLeastZero(calls: seq<Call>, t: Instant)
    requires AtOnce(calls, t)
    ensures Asked(calls) >= 0
  {
    if calls == [] {
    } else {
      AskedAtLeastZero(calls[1..], t);
    }
  }

  /** Calls at one time that ask for no more than the tokens at hand are all admitted, and take just what they ask for. */
  lemma {:induction false} AllAdmitted(b: Bucket, calls: seq<Call>, t: Instant)
    requires WellFormed(b) && AtOnce(calls, t) && Asked(calls) as real <= Refilled(b, t).tokens
    ensures forall i :: 0 <= i < |calls| ==> Decisions(b, calls)[i]
    ensures Admitted(b, calls) == Asked(calls)
    ensures Refilled(RunCalls(b, calls), t).tokens == Refilled(b, t).tokens - Asked(calls) as real
    decreases |calls|
  {
    hide Accrued, After, Refilled, Admits;
    if calls == [] {
    } else {
      var c, rest := calls[0], calls[1..];
      AskedAtLeastZero(rest, t);
      AfterWellFormed(b, c);
      DecisionsTail(b, calls);
      if c.n > 0 {
        CallTakes(b, c.n, t);
        assert c == AllowN(c.n, t);
      } else {
        FreeCall(b, c);
      }
      AllAdmitted(After(b, c), rest, t);
      TakenIsAsked(b, c);
    }
  }

  lemma FreeCall(b: Bucket, c: Call)
    requires WellFormed(b) && c.AllowN? && c.n <= 0
    ensures After(b, c) == b && Admits(b, c)
  {
  }

  lemma TakenIsAsked(b: Bucket, c: Call)
    requires WellFormed(b) && c.AllowN? && Admits(b, c)
    ensures Taken(b, c) == if c.n > 0 then c.n else 0
  {
  }

  /** A new limiter admits its whole rate at once, however it is divided up, and not one unit more. */
  lemma NewLimiterAdmitsRate(rate: int, interval: int, start: Instant, calls: seq<Call>)
    requires rate > 0 && interval > 0 && AtOnce(calls, start) && Asked(calls) == rate
    ensures var b := Bucket(rate as real, interval, rate as real, start);
      && (forall i :: 0 <= i < |calls| ==> Decisions(b, calls)[i])
      && !Admits(RunCalls(b, calls), AllowN(1, start))
  {
    hide Accrued, RunCalls, Decisions;
    var b := Bucket(rate as real, interval, rate as real, start);
    AllAdmitted(b, calls, start);
    CallTakes(RunCalls(b, calls), 1, start);
  }
}
