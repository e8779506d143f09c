/** FibonacciBackoff and LinearBackoff (backoff_extra.go) with 64-bit wrap-around. */
module Backoff {
  import opened Int64
  import opened Division

  const SECOND_NS := 1_000_000_000
  const HOUR_NS := 3_600_000_000_000
  const CAP: int := 0x4000_0000_0000_0000

  function Min(a: int, b: int): int { if a < b then a else b }

  /** fib(1) = fib(2) = 1, without bound. */
  function Fib(n: int): int
    decreases n
  {
    if n <= 2 then 1 else Fib(n - 1) + Fib(n - 2)
  }

  lemma {:induction false} FibGrows(m: int, n: int)
    requires m <= n
    ensures 1 <= Fib(m) <= Fib(n)
    decreases n, n - m
  {
    if n <= 2 {
    } else {
      FibGrows(1, n - 1);
      FibGrows(1, n - 2);
      if m < n {
        FibGrows(m, n - 1);
      }
    }
  }

  /** backoffFib: the sum never overflows, and the value is capped at 2^62. */
  method BackoffFib(n: int) returns (r: int)
    requires Fits(n)
    ensures r == Min(Fib(n), CAP)
  {
    if n <= 2 {
      return 1;
    }
    var a, b := 1, 1;
    var i := 3;
    while i <= n
      invariant 3 <= i <= n + 1
      invariant a == Fib(i - 2) && b == Fib(i - 1) && 1 <= a <= b < CAP
      decreases n - i
    {
      FibGrows(i - 1, i);
      a, b := b, Wrap(a + b);
      if b >= CAP {
        FibGrows(i, n);
        return CAP;
      }
      i := i + 1;
    }
    return b;
  }

  datatype Fibonacci = Fibonacci(unit: int, max: int) {
    function Unit(): int { if unit <= 0 then SECOND_NS else unit }
    function Max(): int { if max <= 0 then HOUR_NS else max }
  }

  predicate DurationFields(a: int, b: int) { Fits(a) && Fits(b) }

  /** The exact policy: Unit * fib(n), capped at Max. */
  function ExactFibonacci(p: Fibonacci, attempt: int): int {
    Min(p.Unit() * Fib(if attempt < 1 then 1 else attempt), p.Max())
  }

  /** What FibonacciBackoff.Next returns: fib is capped at 2^62 before scaling. */
  function FibonacciDelay(p: Fibonacci, attempt: int): int {
    Min(p.Unit() * Min(Fib(if attempt < 1 then 1 else attempt), CAP), p.Max())
  }

  method FibonacciNext(p: Fibonacci, attempt: int) returns (d: int)
    requires DurationFields(p.unit, p.max) && Fits(attempt)
    ensures d == FibonacciDelay(p, attempt) && 0 < d <= p.Max()
  {
    hide Wrap;
    var n := attempt;
    if n < 1 {
      n := 1;
    }
    var unit, max := p.Unit(), p.Max();
    var fib := BackoffFib(n);
    FibGrows(1, n);
    if fib > max / unit {
      ScaledAbove(unit, fib, max);
      return max;
    }
    ScaledWithin(unit, fib, max);
    d := Wrap(unit * fib);
    if d > max || d < 0 {
      d := max;
    }
  }

  lemma ScaledAbove(unit: int, fib: int, max: int)
    requires unit > 0 && max > 0 && fib > max / unit
    ensures unit * fib > max
  {
    Around(max, unit);
    MulGrows(unit, max / unit, fib);
  }

  lemma ScaledWithin(unit: int, fib: int, max: int)
    requires unit > 0 && max > 0 && 0 < fib <= max / unit
    ensures 0 < unit * fib <= max
  {
    Around(max, unit);
    MulGrows(unit, 0, fib);
    if fib < max / unit {
      MulGrows(unit, fib, max / unit);
    }
  }

  /**
   Next is min(Unit * fib(n), Max) exactly when the cap on fib does not show: fib(n)
   is at most 2^62, or 2^62 units reach Max.
   */
  lemma FibonacciExact(p: Fibonacci, attempt: int)
    requires DurationFields(p.unit, p.max)
    ensures FibonacciDelay(p, attempt) == ExactFibonacci(p, attempt)
      <==> Fib(if attempt < 1 then 1 else attempt) <= CAP || p.Max() / p.Unit() <= CAP
  {
    var n := if attempt < 1 then 1 else attempt;
    var unit, max, f := p.Unit(), p.Max(), Fib(n);
    FibGrows(1, n);
    if f > CAP {
      MulGrows(unit, CAP, f);
      if max / unit <= CAP {
        ReachesMax(unit, max);
      } else {
        ScaledBelow(unit, max);
      }
    }
  }

  lemma ReachesMax(unit: int, max: int)
    requires unit > 0 && 0 < max < TWO63 && max / unit <= CAP
    ensures unit * CAP >= max
  {
    if unit == 1 {
    } else {
      assert unit * CAP >= 2 * CAP;
    }
  }

  lemma ScaledBelow(unit: int, max: int)
    requires unit > 0 && max / unit > CAP
    ensures unit * CAP < max
  {
    Around(max, unit);
    MulGrows(unit, CAP, max / unit);
  }

  /** The delay never shrinks as attempts go on. */
  lemma FibonacciMonotone(p: Fibonacci, a: int, b: int)
    requires a <= b
    ensures FibonacciDelay(p, a) <= FibonacciDelay(p, b)
  {
    var m, n := if a < 1 then 1 else a, if b < 1 then 1 else b;
    FibGrows(m, n);
    var x, y := Min(Fib(m), CAP), Min(Fib(n), CAP);
    if x < y {
      MulGrows(p.Unit(), x, y);
    }
  }

  // ---- Linear ----

  datatype Linear = Linear(base: int, step: int, max: int) {
    function Base(): int { if base <= 0 then SECOND_NS else base }
    function Step(): int { if step <= 0 then SECOND_NS else step }
    function Max(): int { if max <= 0 then HOUR_NS else max }
    /** Base + Step*(n-1), without bound. */
    function Sum(attempt: int): int { Base() + Step() * ((if attempt < 1 then 1 else attempt) - 1) }
  }

  method LinearNext(p: Linear, attempt: int) returns (d: int)
    requires DurationFields(p.base, p.step) && Fits(p.max) && Fits(attempt)
    ensures d == LinearDelay(p, attempt)
  {
    hide Wrap;
    var n := attempt;
    if n < 1 {
      n := 1;
    }
    var base, step, max := p.Base(), p.Step(), p.Max();
    d := Wrap(base + Wrap(step * Wrap(n - 1)));
    WrapTwice(base, step * (n - 1));
    if d > max || d < 0 {
      d := max;
    }
  }

  function LinearDelay(p: Linear, attempt: int): int {
    var d := Wrap(p.Sum(attempt));
    if d > p.Max() || d < 0 then p.Max() else d
  }

  /** Wrapping inside a sum does not change the wrapped sum. */
  lemma WrapTwice(a: int, x: int)
    ensures Wrap(a + Wrap(x)) == Wrap(a + x)
  {
    var q := (x + TWO63) / TWO64;
    assert Wrap(x) == x - q * TWO64;
    assert (a + x + TWO63 - q * TWO64) % TWO64 == (a + x + TWO63) % TWO64;
  }

  /**
   Next is min(Base + Step*(n-1), Max) exactly when the exact sum stays below 2^64, or
   its wrapped value lands where the overflow guard catches it.
   */
  lemma LinearExact(p: Linear, attempt: int)
    requires DurationFields(p.base, p.step) && Fits(p.max)
    ensures LinearDelay(p, attempt) == Min(p.Sum(attempt), p.Max())
      <==> p.Sum(attempt) < TWO64 || Wrap(p.Sum(attempt)) < 0 || Wrap(p.Sum(attempt)) >= p.Max()
  {
    var n := if attempt < 1 then 1 else attempt;
    assert p.Step() * (n - 1) >= 0;
    var s := p.Sum(attempt);
    assert s >= 1;
    if TWO63 <= s < TWO64 {
      assert Wrap(s) == s - TWO64;
    }
  }

  /** An overflow the guard misses: two steps of 2^63 - 1 wrap around to a short delay. */
  lemma LinearOverflow()
    ensures LinearDelay(Linear(3, TWO63 - 1, HOUR_NS), 3) == 1
  {
    assert Linear(3, TWO63 - 1, HOUR_NS).Sum(3) == TWO64 + 1;
    assert Wrap(TWO64 + 1) == 1;
  }

  /** The defaults, and the first delays they give. */
  lemma DefaultDelays()
    ensures var p := Fibonacci(0, 0);
      && p.Unit() == 1_000_000_000 && p.Max() == 3600 * 1_000_000_000
      && FibonacciDelay(p, 0) == FibonacciDelay(p, 1) == FibonacciDelay(p, 2) == 1_000_000_000
      && FibonacciDelay(p, 3) == 2_000_000_000 && FibonacciDelay(p, 4) == 3_000_000_000
    ensures var p := Linear(0, 0, 0);
      && p.Base() == p.Step() == 1_000_000_000 && p.Max() == 3600 * 1_000_000_000
      && LinearDelay(p, 0) == LinearDelay(p, 1) == 1_000_000_000 && LinearDelay(p, 5) == 5_000_000_000
  {
    assert Fib(3) == 2 && Fib(4) == 3;
  }
}
