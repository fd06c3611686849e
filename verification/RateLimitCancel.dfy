/** pkg/ratelimit: what a cancelled Wait leaves behind. */
module RateLimitCancel {
  import opened Collections
  import opened Runs
  import opened RateLimit
  import opened RateLimitOrder

  // ----- the same calls with and without a Wait that is cancelled -----

  /** What others call between a reservation and its repayment. Whether an Allow is granted depends on the bucket; a
      Wait takes its token in any case, and Return is the repayment of another cancelled Wait. */
  datatype Call = TryAllow(at: int) | Wait(at: int) | Return(at: int)

  function Serve(b: Bucket, c: Call): Bucket {
    match c
    case TryAllow(t) => b.Allow(t).0
    case Wait(t) => b.Reserve(t)
    case Return(t) => b.Repay(t)
  }

  predicate Granted(b: Bucket, c: Call) { c.TryAllow? && b.Allow(c.at).1 }

  function ServeAll(b: Bucket, calls: seq<Call>): Bucket
    decreases |calls|
  {
    if calls == [] then b else ServeAll(Serve(b, calls[0]), calls[1..])
  }

  /** How many of the Allows are granted. */
  function Grants(b: Bucket, calls: seq<Call>): nat
    decreases |calls|
  {
    if calls == [] then 0 else (if Granted(b, calls[0]) then 1 else 0) + Grants(Serve(b, calls[0]), calls[1..])
  }

  /** Every Allow gets the same answer from both buckets. */
  predicate SameAnswers(x: Bucket, y: Bucket, calls: seq<Call>)
    decreases |calls|
  {
    calls == []
    || (Granted(x, calls[0]) == Granted(y, calls[0]) && SameAnswers(Serve(x, calls[0]), Serve(y, calls[0]), calls[1..]))
  }

  /** Tokens the cap discards in the course of a call. */
  function Clip(b: Bucket, c: Call): real {
    if c.Return? then b.RepaySpill(c.at) else b.Spill(c.at)
  }

  function ClipAll(b: Bucket, calls: seq<Call>): (c: real)
    ensures c >= 0.0
    decreases |calls|
  {
    if calls == [] then 0.0 else Clip(b, calls[0]) + ClipAll(Serve(b, calls[0]), calls[1..])
  }

  /** Every Allow that `y` grants leaves at least what a reservation would still be holding: one token, less what the
      cap has discarded so far, of which there were `c` tokens before these calls. */
  predicate Spares(y: Bucket, c: real, calls: seq<Call>)
    decreases |calls|
  {
    calls == []
    || (&& (Granted(y, calls[0]) ==> Serve(y, calls[0]).tokens >= Pos(1.0 - (c + y.Spill(calls[0].at))))
        && Spares(Serve(y, calls[0]), c + Clip(y, calls[0]), calls[1..]))
  }

  /** `x` is `y` with one reservation outstanding, of which `c` tokens no longer show because
      `y` has lost that much to the cap. */
  ghost predicate Behind(x: Bucket, y: Bucket, c: real) {
    x.Valid() && y.Valid() && c >= 0.0 && x == y.(tokens := y.tokens - Pos(1.0 - c))
  }

  lemma BehindAdvance(x: Bucket, y: Bucket, c: real, t: int)
    requires Behind(x, y, c)
    ensures Behind(x.Advance(t), y.Advance(t), c + y.Spill(t))
  {
  }

  /** A call that both buckets answer alike keeps the one behind the other; and they do unless an Allow granted by the
      one in front leaves too little. */
  lemma BehindStep(x: Bucket, y: Bucket, c: real, call: Call)
    requires Behind(x, y, c)
    ensures Granted(x, call) == Granted(y, call)
            <==> (Granted(y, call) ==> Serve(y, call).tokens >= Pos(1.0 - (c + y.Spill(call.at))))
    ensures Granted(x, call) == Granted(y, call) ==> Behind(Serve(x, call), Serve(y, call), c + Clip(y, call))
  {
    BehindAdvance(x, y, c, call.at);
  }

  lemma {:induction false} BehindAll(x: Bucket, y: Bucket, c: real, calls: seq<Call>)
    requires Behind(x, y, c)
    ensures SameAnswers(x, y, calls) <==> Spares(y, c, calls)
    ensures SameAnswers(x, y, calls) ==> Behind(ServeAll(x, calls), ServeAll(y, calls), c + ClipAll(y, calls))
    decreases |calls|
  {
    if calls != [] {
      BehindStep(x, y, c, calls[0]);
      if Granted(x, calls[0]) == Granted(y, calls[0]) {
        BehindAll(Serve(x, calls[0]), Serve(y, calls[0]), c + Clip(y, calls[0]), calls[1..]);
      }
    }
  }

  /** The bucket after a Wait reserved at t0, others called, and the Wait repaid at t1. */
  function WithWait(b: Bucket, t0: int, calls: seq<Call>, t1: int): Bucket {
    ServeAll(b.Reserve(t0), calls).Repay(t1)
  }

  /** The bucket after the same calls without that Wait. */
  function WithoutWait(b: Bucket, t0: int, calls: seq<Call>, t1: int): Bucket {
    ServeAll(b.Advance(t0), calls).Advance(t1)
  }

  /** Nobody gets another answer because of the Wait. */
  predicate Unnoticed(b: Bucket, t0: int, calls: seq<Call>) {
    SameAnswers(b.Reserve(t0), b.Advance(t0), calls)
  }

  /** All the tokens the run without the Wait loses to the cap between t0 and t1. */
  function Overflow(b: Bucket, t0: int, calls: seq<Call>, t1: int): real {
    ClipAll(b.Advance(t0), calls) + ServeAll(b.Advance(t0), calls).Spill(t1)
  }

  /** What a cancelled Wait costs and leaves, for any calls in between, told by the run without it alone. Nobody gets
      another answer because of it if and only if every Allow granted without it leaves enough to spare; then it costs
      no token. And nobody can tell that it ever was, from the answers or from the bucket, if and only if in addition
      the run without it overflowed nothing meanwhile or ends with a full bucket. */
  lemma CancelledWait(b: Bucket, t0: int, calls: seq<Call>, t1: int)
    requires b.Valid()
    ensures Unnoticed(b, t0, calls) <==> Spares(b.Advance(t0), 0.0, calls)
    ensures Unnoticed(b, t0, calls) ==> WithWait(b, t0, calls, t1).tokens >= WithoutWait(b, t0, calls, t1).tokens
    ensures Unnoticed(b, t0, calls) && WithWait(b, t0, calls, t1) == WithoutWait(b, t0, calls, t1)
            <==> && Spares(b.Advance(t0), 0.0, calls)
                 && (Overflow(b, t0, calls, t1) == 0.0 || WithoutWait(b, t0, calls, t1).tokens == b.burst as real)
  {
    BehindAll(b.Reserve(t0), b.Advance(t0), 0.0, calls);
    SameShape(b.Advance(t0), calls);
    if Unnoticed(b, t0, calls) {
      BehindRepaid(ServeAll(b.Reserve(t0), calls), ServeAll(b.Advance(t0), calls), ClipAll(b.Advance(t0), calls), t1);
    }
  }

  /** The repayment, once every call was answered alike. */
  lemma BehindRepaid(x: Bucket, y: Bucket, c: real, t: int)
    requires Behind(x, y, c)
    ensures x.Repay(t).tokens >= y.Advance(t).tokens
    ensures x.Repay(t) == y.Advance(t) <==> c + y.Spill(t) == 0.0 || y.Advance(t).tokens == y.burst as real
  {
    BehindAdvance(x, y, c, t);
  }

  lemma {:induction false} SameShape(b: Bucket, calls: seq<Call>)
    ensures ServeAll(b, calls).burst == b.burst && ServeAll(b, calls).rate == b.rate
    ensures b.Valid() ==> ServeAll(b, calls).Valid()
    decreases |calls|
  {
    if calls != [] { SameShape(Serve(b, calls[0]), calls[1..]); }
  }

  /** Among Allows that are refused even without it, the cancelled Wait is invisible, cap or no cap. */
  lemma InvisibleAmongRefusals(b: Bucket, t0: int, calls: seq<Call>, t1: int)
    requires b.Valid() && Grants(b.Advance(t0), calls) == 0 && forall i | 0 <= i < |calls| :: calls[i].TryAllow?
    ensures Unnoticed(b, t0, calls) && WithWait(b, t0, calls, t1) == WithoutWait(b, t0, calls, t1)
  {
    CancelledWait(b, t0, calls, t1);
    RefusalsKeepFull(b.Advance(t0), 0.0, calls);
    SameShape(b.Advance(t0), calls);
    FullStaysFull(ServeAll(b.Advance(t0), calls), t1);
  }

  lemma FullStaysFull(b: Bucket, t: int)
    requires b.Valid()
    ensures b.tokens == b.burst as real || b.Spill(t) > 0.0 ==> b.Advance(t).tokens == b.burst as real
  {
    AccruedSpan(b.rate, 1.0);
    if t - b.last > 0 { AccruedMono(b.rate, 0.0, (t - b.last) as real); }
  }

  lemma {:induction false} RefusalsKeepFull(b: Bucket, c: real, calls: seq<Call>)
    requires b.Valid() && Grants(b, calls) == 0 && forall i | 0 <= i < |calls| :: calls[i].TryAllow?
    ensures Spares(b, c, calls)
    ensures b.tokens == b.burst as real || ClipAll(b, calls) > 0.0 ==> ServeAll(b, calls).tokens == b.burst as real
    decreases |calls|
  {
    if calls != [] {
      assert calls[0].TryAllow? && !Granted(b, calls[0]);
      FullStaysFull(b, calls[0].at);
      RefusalsKeepFull(Serve(b, calls[0]), c + Clip(b, calls[0]), calls[1..]);
    }
  }

  // ----- cancelled by the instant of funding -----

  /** Until t neither bucket can overflow, not even by a repayment into x, and x owes what y holds more or granted less. */
  ghost predicate Even(x: Bucket, y: Bucket, d: int, t: int) {
    && x.Valid() && y.Valid() && x.rate == y.rate && x.burst == y.burst && x.last == y.last <= t
    && LevelAt(y, t) <= y.burst as real && LevelAt(x, t) <= x.burst as real - 1.0
    && x.tokens + 1.0 == y.tokens + d as real
  }

  lemma LevelOnlyFalls(b: Bucket, t: int, t1: int)
    requires b.Valid() && b.last <= t1 && t <= t1 && LevelAt(b, t1) <= b.burst as real
    ensures LevelAt(b.Advance(t), t1) == LevelAt(b, t1)
    ensures b.Spill(t) == 0.0 && b.Advance(t).last <= t1
    ensures t - b.last > 0 ==> b.Advance(t).tokens == b.tokens + Accrued(b.rate, (t - b.last) as real)
  {
    if t - b.last > 0 {
      var d := (t - b.last) as real;
      AccruedAdd(b.rate, d, (t1 - t) as real);
      assert d + (t1 - t) as real == (t1 - b.last) as real;
      AccruedMono(b.rate, d, (t1 - b.last) as real);
    }
  }

  lemma EvenAdvance(x: Bucket, y: Bucket, d: int, t: int, t1: int)
    requires Even(x, y, d, t1) && t <= t1
    ensures Even(x.Advance(t), y.Advance(t), d, t1)
  {
    LevelOnlyFalls(x, t, t1);
    LevelOnlyFalls(y, t, t1);
  }

  lemma EvenStep(x: Bucket, y: Bucket, d: int, c: Call, t1: int)
    requires Even(x, y, d, t1) && !c.Return? && c.at <= t1
    ensures Even(Serve(x, c), Serve(y, c), d + (if Granted(y, c) then 1 else 0) - (if Granted(x, c) then 1 else 0), t1)
  {
    EvenAdvance(x, y, d, c.at, t1);
  }

  lemma {:induction false} EvenAll(x: Bucket, y: Bucket, d: int, calls: seq<Call>, t1: int)
    requires Even(x, y, d, t1) && forall i | 0 <= i < |calls| :: !calls[i].Return? && calls[i].at <= t1
    ensures Even(ServeAll(x, calls), ServeAll(y, calls), d + Grants(y, calls) - Grants(x, calls), t1)
    decreases |calls|
  {
    if calls != [] {
      EvenStep(x, y, d, calls[0], t1);
      var d' := d + (if Granted(y, calls[0]) then 1 else 0) - (if Granted(x, calls[0]) then 1 else 0);
      EvenAll(Serve(x, calls[0]), Serve(y, calls[0]), d', calls[1..], t1);
    }
  }

  /** A Wait cancelled no later than the instant its token would have been funded costs nothing and mints nothing,
      whatever the others call meanwhile, provided none of them repays: tokens and granted Allows add up to the same. So
      it leaves the same bucket if and only if it kept no Allow from being granted. */
  lemma InvisibleBeforeFunding(b: Bucket, t0: int, calls: seq<Call>, t1: int)
    requires b.Valid() && b.last <= t0 <= t1 && t1 as real <= b.Reserve(t0).Funded()
    requires forall i | 0 <= i < |calls| :: !calls[i].Return? && calls[i].at <= t1
    ensures Grants(b.Reserve(t0), calls) as real + WithWait(b, t0, calls, t1).tokens
            == Grants(b.Advance(t0), calls) as real + WithoutWait(b, t0, calls, t1).tokens
    ensures WithWait(b, t0, calls, t1) == WithoutWait(b, t0, calls, t1)
            <==> Grants(b.Reserve(t0), calls) == Grants(b.Advance(t0), calls)
  {
    var y, r := b.Advance(t0), b.Reserve(t0);
    assert LevelAt(y, t1) <= b.burst as real by {
      AccruedSpan(b.rate, 1.0);
      if t1 > t0 {
        assert r.tokens < 0.0;
        AccruedSpan(b.rate, -r.tokens);
        AccruedMono(b.rate, (t1 - t0) as real, Span(b.rate, -r.tokens));
      }
    }
    EvenAll(r, y, 0, calls, t1);
    var d := Grants(y, calls) - Grants(r, calls);
    EvenAdvance(ServeAll(r, calls), ServeAll(y, calls), d, t1, t1);
    EvenRepaid(ServeAll(r, calls).Advance(t1), ServeAll(y, calls).Advance(t1), d, t1);
  }

  /** At t itself the repayment is not capped. */
  lemma EvenRepaid(x: Bucket, y: Bucket, d: int, t: int)
    requires Even(x, y, d, t) && x.last == t
    ensures x.Repay(t) == y.(tokens := y.tokens + d as real)
  {
    AccruedSpan(x.rate, 1.0);
  }

  // ----- how far apart the two can ever be -----

  /** `x` serves the same calls as `y` with one reservation outstanding, and has granted d Allows fewer so far: none,
      and it holds up to one token less, or one, and it holds up to one token more. */
  ghost predicate Reserved(x: Bucket, y: Bucket, d: int) {
    && x.Valid() && y.Valid() && x == y.(tokens := x.tokens)
    && if d == 0 then y.tokens - 1.0 <= x.tokens <= y.tokens
       else d == 1 && y.tokens <= x.tokens <= y.tokens + 1.0
  }

  lemma ReservedStep(x: Bucket, y: Bucket, d: int, c: Call)
    requires Reserved(x, y, d)
    ensures Reserved(Serve(x, c), Serve(y, c), d + (if Granted(y, c) then 1 else 0) - (if Granted(x, c) then 1 else 0))
  {
    assert x.Advance(c.at) == y.Advance(c.at).(tokens := x.Advance(c.at).tokens);
  }

  lemma {:induction false} ReservedAll(x: Bucket, y: Bucket, d: int, calls: seq<Call>)
    requires Reserved(x, y, d)
    ensures Reserved(ServeAll(x, calls), ServeAll(y, calls), d + Grants(y, calls) - Grants(x, calls))
    decreases |calls|
  {
    if calls != [] {
      ReservedStep(x, y, d, calls[0]);
      var d' := d + (if Granted(y, calls[0]) then 1 else 0) - (if Granted(x, calls[0]) then 1 else 0);
      ReservedAll(Serve(x, calls[0]), Serve(y, calls[0]), d', calls[1..]);
    }
  }

  /** For any calls at all in between, at most one Allow fewer is granted in all because of a cancelled Wait. If as many
      are granted, no token is missing afterwards and at most one is there too many; if one fewer is, its token is still
      there afterwards if and only if the bucket without the Wait has room for it, and otherwise part of it is gone. */
  lemma CancelledWaitAmongCalls(b: Bucket, t0: int, calls: seq<Call>, t1: int)
    requires b.Valid()
    ensures var fewer := Grants(b.Advance(t0), calls) - Grants(b.Reserve(t0), calls);
            var after, plain := WithWait(b, t0, calls, t1).tokens, WithoutWait(b, t0, calls, t1).tokens;
            if fewer == 0 then plain <= after <= plain + 1.0
            else
              && fewer == 1
              && (after >= plain + 1.0 <==> plain <= b.burst as real - 1.0)
              && after >= plain
  {
    ReservedAll(b.Reserve(t0), b.Advance(t0), 0, calls);
    SameShape(b.Advance(t0), calls);
  }

  // ----- runs with cancelled Waits -----

  lemma Then(ss: seq<State>, es: seq<Event>, e: Event) returns (ss': seq<State>, es': seq<Event>)
    requires Run(Init, Next, ss, es) && Enabled(Last(ss), e)
    ensures Run(Init, Next, ss', es') && |ss'| == |ss| + 1 && ss'[0] == ss[0] && Last(ss') == Apply(Last(ss), e)
    ensures es' == es + [e]
  {
    Extend(Init, Next, ss, es, e, Apply(Last(ss), e));
    ss', es' := ss + [Apply(Last(ss), e)], es + [e];
  }

  /** The design record's "the repayment is exact" fails. Both runs make the same two Allows, granted in both, at one
      token per second and burst one; the Wait of the first run is cancelled after its bucket had filled up and been
      used, and its repayment mints a token that the run without it does not have. */
  lemma LateCancelMintsToken() returns (ss: seq<State>, es: seq<Event>, rs: seq<State>, ds: seq<Event>)
    ensures Run(Init, Next, ss, es) && Run(Init, Next, rs, ds) && ss[0] == rs[0]
    ensures es == [AllowCall, Tick(500000000), WaitCall(1), Tick(2500000000), AllowCall, Cancel(1)]
    ensures ds == [AllowCall, Tick(500000000), Tick(2500000000), AllowCall]
    ensures Last(ss).allowed == Last(rs).allowed == 2 && Last(ss).now == Last(rs).now
    ensures Last(ss).bucket == Last(rs).bucket.(tokens := 1.0) && Last(rs).bucket.tokens == 0.0
  {
    ss, es := HalfRefilled();
    rs, ds := Then(ss, es, Tick(2500000000));
    rs, ds := Then(rs, ds, AllowCall);
    ss, es := Then(ss, es, WaitCall(1));
    assert Last(ss).bucket == Bucket(1.0, 1, -0.5, 500000000);
    ss, es := Then(ss, es, Tick(2500000000));
    ss, es := Then(ss, es, AllowCall);
    assert Last(ss).bucket == Bucket(1.0, 1, 0.0, 2500000000);
    ss, es := Then(ss, es, Cancel(1));
  }

  /** "A canceled Wait never costs a token" fails too. Both runs make the same two Allows; the Wait of the first run makes
      the second one fail, and is cancelled when the bucket is full, so that its repayment is discarded: one Allow less,
      and no token more. */
  lemma CancelledWaitCostsToken() returns (ss: seq<State>, es: seq<Event>, rs: seq<State>, ds: seq<Event>)
    ensures Run(Init, Next, ss, es) && Run(Init, Next, rs, ds) && ss[0] == rs[0]
    ensures es == [AllowCall, Tick(500000000), WaitCall(1), Tick(1000000000), AllowCall, Tick(2000000000), Cancel(1)]
    ensures ds == [AllowCall, Tick(500000000), Tick(1000000000), AllowCall, Tick(2000000000)]
    ensures Last(ss).now == Last(rs).now && Last(ss).bucket == Last(rs).bucket.Advance(Last(rs).now)
    ensures Last(ss).allowed == 1 && Last(rs).allowed == 2
  {
    ss, es := HalfRefilled();
    rs, ds := Then(ss, es, Tick(1000000000));
    rs, ds := Then(rs, ds, AllowCall);
    assert Last(rs).bucket == Bucket(1.0, 1, 0.0, 1000000000);
    rs, ds := Then(rs, ds, Tick(2000000000));
    ss, es := Then(ss, es, WaitCall(1));
    assert Last(ss).bucket == Bucket(1.0, 1, -0.5, 500000000);
    ss, es := Then(ss, es, Tick(1000000000));
    ss, es := Then(ss, es, AllowCall);
    assert Last(ss).bucket == Bucket(1.0, 1, 0.0, 1000000000);
    ss, es := Then(ss, es, Tick(2000000000));
    ss, es := Then(ss, es, Cancel(1));
  }

  /** The burst was used at once, half a second ago. */
  lemma HalfRefilled() returns (ss: seq<State>, es: seq<Event>)
    ensures Run(Init, Next, ss, es) && |ss| == 3 && es == [AllowCall, Tick(500000000)]
    ensures ss[0] == Full()
    ensures Last(ss).bucket == Bucket(1.0, 1, 0.0, 0) && Last(ss).now == 500000000
    ensures Last(ss).sleepers == map[] && Last(ss).allowed == 1
  {
    ss, es := [Full()], [];
    ss, es := Then(ss, es, AllowCall);
    ss, es := Then(ss, es, Tick(500000000));
  }

  /** A new limiter of one token per second and burst one. */
  function Full(): State { State(Bucket(1.0, 1, 1.0, 0), 0, 0, map[], 0, 0, 0, 0.0, [], {}) }

  /** A concrete run (one token per second, burst one, all at the same instant): two cancelled
      Waits let Waits 5 and 6 share the slots of Wait 4, so Wait 5 overtakes it and three tokens that are
      kept fall due in a window of 1.1 seconds, which the per-window law would limit to two. */
  lemma CancelledRun() returns (ss: seq<State>, es: seq<Event>)
    ensures Run(Init, Next, ss, es) && |ss| == 9
    ensures ss[8].sleepers == map[4 := Sleeper(3000000000, 3), 5 := Sleeper(2000000000, 4), 6 := Sleeper(3000000000, 5)]
    ensures |ss[8].taken| == 6 && ss[8].repaid == {1, 2} && ss[8].taken[4].funded < ss[8].taken[3].funded
    ensures {3, 4, 5} <= InWindow(ss[8].taken, 1900000000.0, 3000000000.0)
    ensures ss[8].bucket.burst as real + Accrued(ss[8].bucket.rate, 1100000000.0) < 3.0
  {
    ss, es := Opening();
    ss, es := OweMore(ss, es, 2, 0);
    ss, es := OweMore(ss, es, 3, 1);
    ss, es := OweMore(ss, es, 4, 2);
    assert Last(ss).taken[3].funded == 3000000000.0;
    ss, es := OweLess(ss, es, 2, 3);
    ss, es := OweLess(ss, es, 3, 2);
    ss, es := OweMore(ss, es, 5, 1);
    ss, es := OweMore(ss, es, 6, 2);
    assert 3 in InWindow(ss[8].taken, 1900000000.0, 3000000000.0);
    assert 4 in InWindow(ss[8].taken, 1900000000.0, 3000000000.0);
    assert 5 in InWindow(ss[8].taken, 1900000000.0, 3000000000.0);
  }

  function Owing(k: nat): Bucket { Bucket(1.0, 1, -(k as real), 0) }

  /** The run so far, all at instant 0, ends owing k tokens. */
  ghost predicate Owes(ss: seq<State>, es: seq<Event>, k: nat) {
    Run(Init, Next, ss, es) && Last(ss).bucket == Owing(k) && Last(ss).now == 0
  }

  lemma Opening() returns (ss: seq<State>, es: seq<Event>)
    ensures Owes(ss, es, 0) && |ss| == 2 && Last(ss).sleepers == map[] && |Last(ss).taken| == 1 && Last(ss).repaid == {}
  {
    ss, es := Then([Full()], [], WaitCall(1));
  }

  lemma OweMore(ss: seq<State>, es: seq<Event>, w: nat, k: nat) returns (ss': seq<State>, es': seq<Event>)
    requires Owes(ss, es, k) && w !in Last(ss).sleepers
    ensures Owes(ss', es', k + 1) && |ss'| == |ss| + 1
    ensures var s, s', due := Last(ss), Last(ss'), (k + 1) * 1000000000;
            && s'.sleepers == s.sleepers[w := Sleeper(due, |s.taken|)]
            && |s'.taken| == |s.taken| + 1 && s'.taken[..|s.taken|] == s.taken && Last(s'.taken).funded == due as real
            && s'.repaid == s.repaid
  {
    assert Span(1.0, (k + 1) as real) == ((k + 1) * 1000000000) as real;
    ss', es' := Then(ss, es, WaitCall(w));
  }

  lemma OweLess(ss: seq<State>, es: seq<Event>, w: nat, k: nat) returns (ss': seq<State>, es': seq<Event>)
    requires Owes(ss, es, k) && k > 0 && w in Last(ss).sleepers
    ensures Owes(ss', es', k - 1) && |ss'| == |ss| + 1
    ensures var s, s' := Last(ss), Last(ss');
            && s'.sleepers == s.sleepers - {w} && s'.taken == s.taken
            && s'.repaid == s.repaid + {s.sleepers[w].token}
  {
    ss', es' := Then(ss, es, Cancel(w));
  }
}
