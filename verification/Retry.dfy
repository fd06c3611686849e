/** pkg/retry: bounded attempts with doubling, capped and jittered delays, over 64-bit nanoseconds. */
module Retry {
  import opened Collections

  const MAX64: int := 0x7fff_ffff_ffff_ffff
  const MIN64: int := -0x8000_0000_0000_0000
  const TWO64: int := 0x1_0000_0000_0000_0000

  /** Two's complement wrap-around of int64 arithmetic. */
  function Wrap64(x: int): (w: int)
    ensures MIN64 <= w <= MAX64
  {
    (x - MIN64) % TWO64 + MIN64
  }

  datatype Policy = Policy(maxAttempts: int, baseDelay: int, maxDelay: int, jitter: real) {
    /** What mustBeValid lets through; it panics on everything else. Delays are int64. */
    predicate Valid() {
      && maxAttempts > 0 && 0 <= baseDelay <= maxDelay <= MAX64
      && 0.0 <= jitter <= 1.0
    }

    /** next: doubles in wrapping int64, clamping at the cap and on overflow. */
    function Next(d: int): int {
      var doubled := Wrap64(d * 2);
      if doubled < d || doubled > maxDelay then maxDelay else doubled
    }

    /** jittered, given the random draw u and, for a product outside int64, whatever the conversion yields. */
    function Jittered(d: int, u: real, junk: int): int {
      if jitter == 0.0 || d == 0 then d
      else
        Clamp(Truncate64(Scaled(d, Factor(u)), junk))
    }

    /** The factor a draw u in [0, 1) turns into: uniform in [1 - Jitter, 1 + Jitter). */
    function Factor(u: real): real { 1.0 + jitter * (2.0 * u - 1.0) }

    /** The delay d times a factor. */
    function Scaled(d: int, f: real): real { f * d as real }

    /** The largest jittered delay fits int64. */
    predicate Fits(d: int) { d as real + jitter * d as real <= MAX64 as real }

    function Clamp(j: int): int { if j > maxDelay then maxDelay else if j < 0 then 0 else j }

    /** The delay variable of Backoff before retry i, counting from 1. */
    function Delay(i: nat): int
      requires i >= 1
    {
      if i == 1 then baseDelay else Next(Delay(i - 1))
    }
  }

  /** Conversion of a floating value to int64: truncation toward zero when it fits. */
  function Truncate64(x: real, junk: int): int {
    var t := if x >= 0.0 then x.Floor else -((-x).Floor);
    if MIN64 <= t <= MAX64 then t else junk
  }

  function Pow2(n: nat): nat { if n == 0 then 1 else 2 * Pow2(n - 1) }

  function MinInt(a: int, b: int): int { if a <= b then a else b }

  /** Doubling in wrapping arithmetic with the two checks is doubling without overflow, capped. */
  lemma NextIsCappedDouble(p: Policy, d: int)
    requires p.Valid() && 0 <= d <= p.maxDelay
    ensures p.Next(d) == MinInt(2 * d, p.maxDelay)
  {
    if 2 * d <= MAX64 {
      assert Wrap64(2 * d) == 2 * d;
    } else {
      assert (2 * d - MIN64) % TWO64 == 2 * d - MIN64 - TWO64;
      assert Wrap64(2 * d) == 2 * d - TWO64;
    }
  }

  /** The pre-jitter delay before retry i is exactly min(BaseDelay * 2^(i-1), MaxDelay), over unbounded integers. */
  lemma {:induction false} DelayIsCappedPower(p: Policy, i: nat)
    requires p.Valid() && i >= 1
    ensures p.Delay(i) == MinInt(p.baseDelay * Pow2(i - 1), p.maxDelay)
    ensures 0 <= p.Delay(i) <= p.maxDelay
  {
    if i > 1 {
      DelayIsCappedPower(p, i - 1);
      NextIsCappedDouble(p, p.Delay(i - 1));
      var x := p.baseDelay * Pow2(i - 2);
      assert p.baseDelay * Pow2(i - 1) == 2 * x;
      assert x >= 0;
    }
  }

  /** A jittered delay never leaves [0, MaxDelay], whatever the draw and the conversion. */
  lemma JitterCapped(p: Policy, d: int, u: real, junk: int)
    requires p.Valid() && 0 <= d <= p.maxDelay
    ensures 0 <= p.Jittered(d, u, junk) <= p.maxDelay
  {
  }

  /** r is d give or take the half-range w, up to the truncated part of a nanosecond, or is the cap. */
  ghost predicate Near(r: int, d: int, w: real, cap: int) {
    r as real <= d as real + w && (d as real - w - 1.0 < r as real || r == cap)
  }

  /** For a draw in [0, 1] and a range that fits int64, the delay lies within Jitter of its value, or is the cap. */
  lemma JitterSpread(p: Policy, d: int, u: real, junk: int) returns (w: real)
    requires p.Valid() && 0 <= d <= p.maxDelay && 0.0 <= u <= 1.0
    ensures w == p.jitter * d as real
    ensures d as real + w <= MAX64 as real ==> Near(p.Jittered(d, u, junk), d, w, p.maxDelay)
  {
    var delta;
    w, delta := Spread(p, d, u);
    if d as real + w <= MAX64 as real { SpreadNear(p, d, u, junk, w, delta); }
  }

  lemma SpreadNear(p: Policy, d: int, u: real, junk: int, w: real, delta: real)
    requires p.Valid() && 0 <= d <= p.maxDelay
    requires -w <= delta <= w <= d as real && d as real + w <= MAX64 as real
    requires p.Factor(u) * d as real == d as real + delta
    ensures Near(p.Jittered(d, u, junk), d, w, p.maxDelay)
  {
    var x := p.Factor(u) * d as real;
    if p.jitter != 0.0 && d != 0 {
      assert p.Jittered(d, u, junk) == p.Clamp(Truncate64(x, junk));
      ClampSpread(p, d, w, delta, junk);
    }
  }

  /** The draw spreads the delay: in the middle of its range the delay is as it was, and at the ends it is Jitter of
      itself shorter, or longer up to the cap, each down to a whole nanosecond. */
  lemma JitterByDraw(p: Policy, d: int, junk: int)
    requires p.Valid() && 0 <= d <= p.maxDelay && p.Fits(d)
    ensures p.Jittered(d, 0.5, junk) == d
    ensures p.Jittered(d, 0.0, junk) == MinInt(p.Scaled(d, 1.0 - p.jitter).Floor, p.maxDelay)
    ensures p.Jittered(d, 1.0, junk) == MinInt(p.Scaled(d, 1.0 + p.jitter).Floor, p.maxDelay)
  {
    FactorAt(p);
    JitterIsFloor(p, d, 0.5, 1.0, junk);
    JitterIsFloor(p, d, 0.0, 1.0 - p.jitter, junk);
    JitterIsFloor(p, d, 1.0, 1.0 + p.jitter, junk);
    ScaledByOne(p, d);
  }

  /** A larger draw never gives a shorter delay. */
  lemma JitterGrows(p: Policy, d: int, u: real, v: real, junk: int)
    requires p.Valid() && 0 <= d <= p.maxDelay && p.Fits(d) && 0.0 <= u <= v <= 1.0
    ensures p.Jittered(d, u, junk) <= p.Jittered(d, v, junk)
  {
    var f, g := p.Factor(u), p.Factor(v);
    JitterIsFloor(p, d, u, f, junk);
    JitterIsFloor(p, d, v, g, junk);
    FactorGrows(p, u, v);
    ScaledGrows(p, d, f, g);
  }

  lemma FactorAt(p: Policy)
    ensures p.Factor(0.5) == 1.0 && p.Factor(0.0) == 1.0 - p.jitter && p.Factor(1.0) == 1.0 + p.jitter
  {
  }

  lemma FactorGrows(p: Policy, u: real, v: real)
    requires p.jitter >= 0.0 && u <= v
    ensures p.Factor(u) <= p.Factor(v)
  {
    assert p.jitter * (v - u) >= 0.0;
  }

  lemma ScaledByOne(p: Policy, d: int)
    ensures p.Scaled(d, 1.0).Floor == d
  {
  }

  lemma ScaledGrows(p: Policy, d: int, f: real, g: real)
    requires d >= 0 && f <= g
    ensures p.Scaled(d, f).Floor <= p.Scaled(d, g).Floor
  {
    assert (g - f) * d as real >= 0.0;
  }

  /** The jittered delay, when the range fits int64. */
  lemma JitterIsFloor(p: Policy, d: int, u: real, f: real, junk: int)
    requires p.Valid() && 0 <= d <= p.maxDelay && p.Fits(d) && 0.0 <= u <= 1.0 && f == p.Factor(u)
    ensures p.Jittered(d, u, junk) == MinInt(p.Scaled(d, f).Floor, p.maxDelay)
  {
    var w, delta := Spread(p, d, u);
    assert 0.0 <= f * d as real <= MAX64 as real;
    if p.jitter == 0.0 || d == 0 { assert f * d as real == d as real; }
  }

  /** The half-range of a delay and how far a draw takes it. */
  lemma Spread(p: Policy, d: int, u: real) returns (w: real, delta: real)
    requires p.Valid() && 0 <= d && 0.0 <= u <= 1.0
    ensures w == p.jitter * d as real && p.Factor(u) * d as real == d as real + delta
    ensures -w <= delta <= w <= d as real
  {
    w, delta := Halves(p.jitter, d as real, u);
  }

  lemma Halves(j: real, d: real, u: real) returns (w: real, delta: real)
    requires 0.0 <= j <= 1.0 && d >= 0.0 && 0.0 <= u <= 1.0
    ensures w == j * d && (1.0 + j * (2.0 * u - 1.0)) * d == d + delta
    ensures -w <= delta <= w <= d
  {
    HalfRange(j, d);
    w := j * d;
    Within(w, u);
    delta := w * (2.0 * u - 1.0);
    Rearranged(j, 2.0 * u - 1.0, d);
  }

  lemma HalfRange(j: real, d: real)
    requires 0.0 <= j <= 1.0 && d >= 0.0
    ensures 0.0 <= j * d <= d
  {
    assert (1.0 - j) * d >= 0.0;
  }

  lemma Rearranged(j: real, t: real, d: real)
    ensures (1.0 + j * t) * d == d + (j * d) * t
  {
    assert (j * t) * d == (j * d) * t;
  }

  lemma Within(w: real, u: real)
    requires w >= 0.0 && 0.0 <= u <= 1.0
    ensures -w <= w * (2.0 * u - 1.0) <= w
  {
    var x := w * u;
    assert 0.0 <= x;
    assert w * (1.0 - u) >= 0.0;
    assert w * (1.0 - u) == w - x;
  }

  lemma ClampSpread(p: Policy, d: int, w: real, delta: real, junk: int)
    requires -w <= delta <= w && w <= d as real && d as real + w <= MAX64 as real && p.maxDelay >= 0
    ensures Near(p.Clamp(Truncate64(d as real + delta, junk)), d, w, p.maxDelay)
  {
    assert (d as real + delta).Floor <= MAX64;
  }

  /** Where the attempts stop: success, the budget, or a context that ends the sleep after attempt a. */
  ghost predicate Stops<E>(p: Policy, fn: nat -> Option<E>, sleep: nat -> Option<E>, a: nat) {
    fn(a).None? || a == p.maxAttempts || sleep(a).Some?
  }

  /** The sleeps asked for so far: the i-th is the jittered min(BaseDelay * 2^i, MaxDelay), within the cap. */
  ghost predicate Requested(p: Policy, slept: seq<int>, draw: nat -> real, junk: nat -> int) {
    forall i | 0 <= i < |slept| ::
      && slept[i] == p.Jittered(MinInt(p.baseDelay * Pow2(i), p.maxDelay), draw(i + 1), junk(i + 1))
      && 0 <= slept[i] <= p.maxDelay
  }

  lemma RequestedMore(p: Policy, slept: seq<int>, draw: nat -> real, junk: nat -> int)
    requires p.Valid() && Requested(p, slept, draw, junk)
    ensures var a := |slept| + 1; Requested(p, slept + [p.Jittered(p.Delay(a), draw(a), junk(a))], draw, junk)
  {
    var a := |slept| + 1;
    DelayIsCappedPower(p, a);
    JitterCapped(p, p.Delay(a), draw(a), junk(a));
  }

  /** Backoff. `fn(a)` is the error of the a-th call, `sleep(a)` the context error that interrupts the sleep after
      it, if any; `draw` and `junk` feed the jitter. The calls run up to the first attempt that stops; there is one
      sleep between consecutive calls, each within the cap; and the error returned is nil, the last error of fn, or
      the context's. */
  method Backoff<E>(ctxErr: Option<E>, p: Policy, fn: nat -> Option<E>, sleep: nat -> Option<E>,
                    draw: nat -> real, junk: nat -> int)
      returns (err: Option<E>, calls: nat, slept: seq<int>)
    requires p.Valid()
    ensures ctxErr.Some? ==> err == ctxErr && calls == 0 && slept == []
    ensures ctxErr.None? ==>
              && 1 <= calls <= p.maxAttempts
              && Stops(p, fn, sleep, calls) && (forall a | 1 <= a < calls :: !Stops(p, fn, sleep, a))
              && (fn(calls).None? ==> err.None? && |slept| == calls - 1)
              && (fn(calls).Some? && calls == p.maxAttempts ==> err == fn(calls) && |slept| == calls - 1)
              && (fn(calls).Some? && calls < p.maxAttempts ==> err == sleep(calls) && |slept| == calls)
    ensures Requested(p, slept, draw, junk)
  {
    if ctxErr.Some? {
      return ctxErr, 0, [];
    }
    var delay := p.baseDelay;
    calls, slept := 0, [];
    while true
      invariant 0 <= calls < p.maxAttempts && |slept| == calls
      invariant delay == p.Delay(calls + 1)
      invariant forall a | 1 <= a <= calls :: !Stops(p, fn, sleep, a)
      invariant Requested(p, slept, draw, junk)
      decreases p.maxAttempts - calls
    {
      calls := calls + 1;
      var lastErr := fn(calls);
      if lastErr.None? {
        return None, calls, slept;
      }
      if calls == p.maxAttempts {
        return lastErr, calls, slept;
      }
      RequestedMore(p, slept, draw, junk);
      slept := slept + [p.Jittered(delay, draw(calls), junk(calls))];
      if sleep(calls).Some? {
        return sleep(calls), calls, slept;
      }
      delay := p.Next(delay);
    }
  }
}
