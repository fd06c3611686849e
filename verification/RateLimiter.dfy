/** pkg/ratelimit: the Limiter object, with one method per lock-protected body. */
module RateLimiter {
  import opened Collections
  import opened RateLimit

  class Limiter {
    const rate: real
    const burst: int
    var tokens: real
    var last: int

    ghost predicate Valid()
      reads this
    {
      View().Valid()
    }

    ghost function View(): Bucket
      reads this
    {
      Bucket(rate, burst, tokens, last)
    }

    /** NewLimiter on valid limits; it panics on all others. */
    constructor (rate: real, burst: int, now: int)
      requires rate > 0.0 && burst >= 1
      ensures Valid() && View() == Bucket(rate, burst, burst as real, now)
    {
      this.rate, this.burst := rate, burst;
      tokens, last := burst as real, now;
    }

    method Advance(now: int)
      requires Valid()
      modifies this
      ensures Valid() && View() == old(View()).Advance(now)
    {
      var elapsed := now - last;
      if elapsed <= 0 {
        return;
      }
      tokens := Min(burst as real, tokens + elapsed as real / SECOND * rate);
      last := now;
    }

    method Allow(now: int) returns (ok: bool)
      requires Valid()
      modifies this
      ensures Valid() && (View(), ok) == old(View()).Allow(now)
      ensures ok ==> tokens >= 0.0
    {
      Advance(now);
      if tokens >= 1.0 {
        tokens := tokens - 1.0;
        return true;
      }
      return false;
    }

    /** The first critical section of Wait; `sleep` is zero when the token was already there. */
    method Reserve(now: int) returns (sleep: int)
      requires Valid()
      modifies this
      ensures Valid() && View() == old(View()).Reserve(now)
      ensures sleep == View().SleepNs()
      ensures sleep == 0 <==> tokens >= 0.0
    {
      Advance(now);
      tokens := tokens - 1.0;
      var shortfall := -tokens;
      if shortfall <= 0.0 {
        return 0;
      }
      sleep := Ceil(shortfall / rate * SECOND);
      SleepReachesFunding(View());
      assert Span(rate, shortfall) > 0.0 by { assert shortfall / rate > 0.0; }
    }

    /** The second critical section of Wait, reached only when the sleep was interrupted. */
    method Repay(now: int)
      requires Valid()
      modifies this
      ensures Valid() && View() == old(View()).Repay(now)
    {
      Advance(now);
      tokens := Min(burst as real, tokens + 1.0);
    }
  }
}
