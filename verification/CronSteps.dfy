/**
 The loop of parsePart, "for v := lo; v <= hi; v += step { mask |= 1 << v }",
 with the wrap-around of a 64-bit int. A huge step can wrap v past zero and set
 bits below lo; StepsExact says exactly which, CleanStep exactly when none.
 */
module CronSteps {
  import opened Int64
  import opened Division

  /** 1 << uint(v) as a set of bit positions: a shift of 64 or more gives no bit. */
  function Bit(v: int): set<int> {
    if 0 <= v < 64 then {v} else {}
  }

  /** v is reached from lo in whole steps of k. */
  predicate Reached(lo: int, v: int, k: int)
    requires k > 0
  {
    lo <= v && (v - lo) % k == 0
  }

  /** The values a range with a step denotes. */
  function Stepped(lo: int, hi: int, step: int): set<int>
    requires step > 0
  {
    set v | lo <= v <= hi && Reached(lo, v, step)
  }

  function Below(lo: int, k: int): set<int>
    requires k > 0
  {
    set v | 0 <= v < lo && Reached(v, lo, k)
  }

  /** The bits set by values that wrapped around. */
  function Wrapped(lo: int, step: int): set<int>
    requires 0 < step < TWO63
  {
    Below(lo, TWO64 - 2 * step)
  }

  ghost predicate Bounds(v: int, hi: int, step: int) {
    Fits(v) && 0 <= hi < 64 && 0 < step < TWO63
  }

  /** Termination measure of the loop; with a huge step v alternates between small and wrapped values. */
  ghost function Rank(v: int, hi: int, step: int): nat
    requires Bounds(v, hi, step)
  {
    if v > hi then 0
    else if hi + step < TWO63 then hi - v + 1
    else if v >= 0 then 2 * v + 1
    else if v + step > hi then 1
    else if v + step < 0 then 2
    else 2 * (v + step) + 2
  }

  lemma RankDrops(v: int, hi: int, step: int)
    requires Bounds(v, hi, step) && v <= hi
    ensures Rank(Wrap(v + step), hi, step) < Rank(v, hi, step)
  {
  }

  ghost function Steps(v: int, hi: int, step: int): set<int>
    requires Bounds(v, hi, step)
    decreases Rank(v, hi, step)
  {
    if v > hi then {}
    else
      RankDrops(v, hi, step);
      Bit(v) + Steps(Wrap(v + step), hi, step)
  }

  method StepMask(lo: int, hi: int, step: int) returns (mask: set<int>)
    requires 0 <= lo <= hi < 64 && 0 < step < TWO63
    ensures mask == Stepped(lo, hi, step) + Wrapped(lo, step)
  {
    mask := {};
    var v := lo;
    while v <= hi
      invariant Bounds(v, hi, step)
      invariant mask + Steps(v, hi, step) == Steps(lo, hi, step)
      decreases Rank(v, hi, step)
    {
      RankDrops(v, hi, step);
      mask := mask + Bit(v);
      v := Wrap(v + step);
    }
    StepsExact(lo, hi, step);
  }

  lemma ReachedStep(lo: int, v: int, k: int)
    requires k > 0
    ensures lo == v ==> Reached(lo, v, k)
    ensures lo < v < lo + k ==> !Reached(lo, v, k)
    ensures lo + k <= v ==> (Reached(lo, v, k) <==> Reached(lo + k, v, k))
    ensures lo + k <= v ==> (Reached(lo, v, k) <==> Reached(lo, v - k, k))
  {
    if lo + k <= v {
      ModMinus(v - lo, k);
    }
  }

  lemma ModMinus(d: int, k: int)
    requires k > 0
    ensures d % k == (d - k) % k
  {
    Quotient(d, k, (d - k) / k + 1, (d - k) % k);
  }

  lemma {:induction false} StepsUp(v: int, hi: int, step: int)
    requires Bounds(v, hi, step) && 0 <= v && hi + step < TWO63
    ensures Steps(v, hi, step) == Stepped(v, hi, step)
    decreases hi - v
  {
    hide Reached;
    if v > hi {
    } else {
      var next := v + step;
      StepsUp(next, hi, step);
      assert Steps(v, hi, step) == {v} + Stepped(next, hi, step);
      forall x | v <= x <= hi
        ensures Reached(v, x, step) <==> x == v || (next <= x && Reached(next, x, step))
      {
        ReachedStep(v, x, step);
      }
    }
  }

  /** A step so large that v + step overflows visits lo, lo - 2k, lo - 4k, ... with k = 2^63 - step. */
  lemma {:induction false} StepsDown(v: int, hi: int, step: int)
    requires Bounds(v, hi, step) && 0 <= v <= hi && hi + step >= TWO63
    ensures Steps(v, hi, step) == {v} + Wrapped(v, step)
    decreases v
  {
    hide Reached, Wrap, Rank;
    var m := TWO64 - 2 * step;
    var w := v - m;
    StepsTwice(v, hi, step);
    if w >= 0 {
      StepsDown(w, hi, step);
    }
    forall x | 0 <= x < v
      ensures Reached(x, v, m) <==> x == w || (x < w && Reached(x, w, m))
    {
      ReachedStep(x, v, m);
      ReachedStep(x, w, m);
    }
  }

  /** Two rounds of the loop under a huge step: out of range and back, lower by 2k. */
  lemma StepsTwice(v: int, hi: int, step: int)
    requires Bounds(v, hi, step) && 0 <= v <= hi && hi + step >= TWO63
    ensures var w := v - (TWO64 - 2 * step);
      Steps(v, hi, step) == {v} + (if w >= 0 then Steps(w, hi, step) else {})
  {
    hide Wrap, Rank;
    var w := v - (TWO64 - 2 * step);
    if v + step >= TWO63 {
      var u := v + step - TWO64;
      assert Steps(v, hi, step) == {v} + Steps(u, hi, step);
      assert Steps(u, hi, step) == {} + Steps(w, hi, step);
      if w < 0 {
        assert Steps(w, hi, step) == {} + Steps(w + step, hi, step);
      }
    } else {
      assert Steps(v, hi, step) == {v} + Steps(v + step, hi, step);
    }
  }

  lemma StepsExact(lo: int, hi: int, step: int)
    requires 0 <= lo <= hi < 64 && 0 < step < TWO63
    ensures Steps(lo, hi, step) == Stepped(lo, hi, step) + Wrapped(lo, step)
  {
    hide Reached, Steps;
    if hi + step < TWO63 {
      StepsUp(lo, hi, step);
      CleanStep(lo, step);
    } else {
      StepsDown(lo, hi, step);
      forall v | lo <= v <= hi ensures Reached(lo, v, step) <==> v == lo {
        ReachedStep(lo, v, step);
      }
    }
  }

  /** No bit comes from wrap-around exactly when lo + 2*step stays below 2^64. */
  lemma CleanStep(lo: int, step: int)
    requires 0 <= lo < 64 && 0 < step < TWO63
    ensures Wrapped(lo, step) == {} <==> lo + 2 * step < TWO64
  {
    hide Reached;
    var m := TWO64 - 2 * step;
    if lo < m {
      forall v | 0 <= v < lo ensures !Reached(v, lo, m) {
        ReachedStep(v, lo, m);
      }
    } else {
      ReachedStep(lo - m, lo, m);
      ReachedStep(lo - m, lo - m, m);
      assert lo - m in Wrapped(lo, step);
    }
  }
}
