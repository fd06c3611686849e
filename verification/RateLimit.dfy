/** pkg/ratelimit: a lazily refilled token bucket whose balance may go negative.
    Tokens and rates are reals, instants are integer nanoseconds. */
module RateLimit {
  import opened Collections
  import opened Runs

  const SECOND: real := 1000000000.0

  // ----- arithmetic of refilling -----

  /** Tokens accrued in `ns` nanoseconds (elapsed.Seconds() * rate). */
  function Accrued(rate: real, ns: real): real { ns / SECOND * rate }

  /** Nanoseconds it takes to accrue `k` tokens. */
  function Span(rate: real, k: real): real
    requires rate > 0.0
  {
    k / rate * SECOND
  }

  function Pos(x: real): real { if x > 0.0 then x else 0.0 }

  /** Smallest integer not below x. */
  function Ceil(x: real): (n: int)
    ensures n as real - 1.0 < x <= n as real
  {
    -((-x).Floor)
  }

  lemma AccruedAdd(rate: real, a: real, b: real)
    ensures Accrued(rate, a) + Accrued(rate, b) == Accrued(rate, a + b)
    ensures Accrued(rate, a) - Accrued(rate, b) == Accrued(rate, a - b)
  {
  }

  lemma AccruedMono(rate: real, a: real, b: real)
    requires rate > 0.0 && a <= b
    ensures Accrued(rate, a) <= Accrued(rate, b)
  {
    var x, y := a / SECOND, b / SECOND;
    assert x <= y;
    assert (y - x) * rate >= 0.0;
  }

  lemma AccruedSpan(rate: real, k: real)
    requires rate > 0.0
    ensures Accrued(rate, Span(rate, k)) == k
    ensures Accrued(rate, 0.0) == 0.0
  {
    var x := k / rate;
    assert x * rate == k;
    assert x * SECOND / SECOND == x;
  }

  // ----- the lock-protected bodies, as functions on the balance -----

  datatype Bucket = Bucket(rate: real, burst: int, tokens: real, last: int) {
    ghost predicate Valid() {
      rate > 0.0 && burst >= 1 && tokens <= burst as real
    }

    /** Brings the balance current with the clock. */
    function Advance(now: int): Bucket {
      if now - last <= 0 then this
      else this.(tokens := Min(burst as real, tokens + Accrued(rate, (now - last) as real)), last := now)
    }

    /** What the cap discards while the balance is brought current. */
    function Spill(now: int): real {
      if now - last <= 0 then 0.0 else Pos(tokens + Accrued(rate, (now - last) as real) - burst as real)
    }

    /** The fail-fast path: one token if a whole one is there. */
    function Allow(now: int): (Bucket, bool) {
      var b := Advance(now);
      if b.tokens >= 1.0 then (b.(tokens := b.tokens - 1.0), true) else (b, false)
    }

    /** The reservation of a waiter: always one token, possibly as debt. */
    function Reserve(now: int): Bucket {
      var b := Advance(now);
      b.(tokens := b.tokens - 1.0)
    }

    /** How long the caller that has just reserved sleeps. */
    function SleepNs(): int
      requires rate > 0.0
    {
      if -tokens <= 0.0 then 0 else Ceil(Span(rate, -tokens))
    }

    /** The repayment of a cancelled reservation. */
    function Repay(now: int): Bucket {
      var b := Advance(now);
      b.(tokens := Min(b.burst as real, b.tokens + 1.0))
    }

    /** What the cap discards of a repayment, and of the refill before it. */
    function RepaySpill(now: int): real {
      Spill(now) + Pos(Advance(now).tokens + 1.0 - burst as real)
    }

    /** The instant at which the balance is, or will be, non-negative: for the caller that
        has just reserved, the instant its token is funded. */
    function Funded(): real
      requires rate > 0.0
    {
      last as real + (if tokens < 0.0 then Span(rate, -tokens) else 0.0)
    }
  }

  /** A sleeper wakes on the first whole nanosecond at or after its funding instant. */
  lemma SleepReachesFunding(b: Bucket)
    requires b.Valid()
    ensures b.Funded() <= (b.last + b.SleepNs()) as real < b.Funded() + 1.0
    ensures b.tokens + Accrued(b.rate, b.SleepNs() as real) >= 0.0
  {
    AccruedSpan(b.rate, -b.tokens);
    if b.tokens < 0.0 {
      AccruedMono(b.rate, Span(b.rate, -b.tokens), b.SleepNs() as real);
    }
  }

  /** Refilling in two pieces is refilling at once, also when the cap is hit. */
  lemma RefillInPieces(b: Bucket, t1: int, t2: int)
    requires b.Valid() && b.last <= t1 <= t2
    ensures b.Advance(t1).Advance(t2) == b.Advance(t2)
  {
    AccruedAdd(b.rate, (t1 - b.last) as real, (t2 - t1) as real);
    assert (t1 - b.last) as real + (t2 - t1) as real == (t2 - b.last) as real;
    AccruedMono(b.rate, 0.0, (t1 - b.last) as real);
    AccruedMono(b.rate, 0.0, (t2 - t1) as real);
    AccruedSpan(b.rate, 1.0);
  }

  // ----- the limiter among its callers -----

  /** A token when it was taken: at which instant, when it is funded, what it left in the bucket, and how many
      repayments had been made and how much had been lost to the cap before. */
  datatype Token = Token(at: int, funded: real, left: real, cancels: nat, lost: real)

  /** A blocked Wait: the instant its timer fires, and the position of its token. */
  datatype Sleeper = Sleeper(wake: int, token: nat)

  /** The limiter with the callers around it. `allowed` counts Allow calls that returned true and `waited`
      Wait calls that returned nil; `taken` lists the tokens in arrival order, `repaid` the positions of
      those given back, `cancels` counts repayments and `lost` adds up what the cap discarded. */
  datatype State = State(bucket: Bucket, start: int, now: int, sleepers: map<nat, Sleeper>, allowed: nat, waited: nat,
                         cancels: nat, lost: real, taken: seq<Token>, repaid: set<nat>)
  {
    /** The token just taken from the bucket that is now b. */
    function Receipt(b: Bucket): Token
      requires b.rate > 0.0
    {
      Token(now, b.Funded(), Pos(b.tokens), cancels, lost + bucket.Spill(now))
    }
  }

  datatype Event =
    | Tick(to: int)
    | AllowCall
    | WaitCall(w: nat)
    | Wake(w: nat)
    | Cancel(w: nat)

  /** NewLimiter: a full bucket. */
  ghost predicate Init(s: State) {
    && s.bucket.Valid()
    && s.bucket.tokens == s.bucket.burst as real
    && s.bucket.last == s.start == s.now
    && s.sleepers == map[] && s.allowed == s.waited == s.cancels == 0
    && s.lost == 0.0 && s.taken == [] && s.repaid == {}
  }

  predicate Enabled(s: State, e: Event) {
    match e
    case Tick(to) => s.now <= to
    case AllowCall => s.bucket.rate > 0.0
    case WaitCall(w) => w !in s.sleepers && s.bucket.rate > 0.0
    case Wake(w) => w in s.sleepers && s.sleepers[w].wake <= s.now
    case Cancel(w) => w in s.sleepers
  }

  function Apply(s: State, e: Event): State
    requires Enabled(s, e)
  {
    match e
    case Tick(to) => s.(now := to)
    case AllowCall =>
      var (b, ok) := s.bucket.Allow(s.now);
      var s' := s.(bucket := b, lost := s.lost + s.bucket.Spill(s.now));
      if ok then s'.(allowed := s.allowed + 1, taken := s.taken + [s.Receipt(b)]) else s'
    case WaitCall(w) =>
      var b := s.bucket.Reserve(s.now);
      var s' := s.(bucket := b, lost := s.lost + s.bucket.Spill(s.now), taken := s.taken + [s.Receipt(b)]);
      if -b.tokens <= 0.0 then s'.(waited := s.waited + 1)
      else s'.(sleepers := s.sleepers[w := Sleeper(s.now + b.SleepNs(), |s.taken|)])
    case Wake(w) => s.(sleepers := s.sleepers - {w}, waited := s.waited + 1)
    case Cancel(w) =>
      s.(bucket := s.bucket.Repay(s.now), lost := s.lost + s.bucket.RepaySpill(s.now), cancels := s.cancels + 1,
         repaid := s.repaid + {s.sleepers[w].token}, sleepers := s.sleepers - {w})
  }

  ghost predicate Next(s: State, e: Event, s': State) {
    Enabled(s, e) && s' == Apply(s, e)
  }

  // ----- the token-bucket law -----

  /** Sleepers whose timer fires after t. */
  ghost function Asleep(sleepers: map<nat, Sleeper>, t: int): set<nat> {
    set w | w in sleepers && sleepers[w].wake > t
  }

  ghost function Admitted(s: State): nat { s.allowed + s.waited }

  /** What the bucket will hold at t if nobody comes, before capping. */
  ghost function LevelAt(b: Bucket, t: int): real {
    b.tokens + Accrued(b.rate, (t - b.last) as real)
  }

  /** At every future instant the debt is at most the number of waiters still asleep then. */
  ghost predicate DebtCovered(s: State) {
    forall t: int :: s.now <= t ==> LevelAt(s.bucket, t) >= -(|Asleep(s.sleepers, t)| as real)
  }

  /** Tokens spent, reserved or still held never exceed what was ever put in. */
  ghost predicate Conserved(s: State) {
    s.bucket.tokens + Admitted(s) as real + |s.sleepers| as real
    <= s.bucket.burst as real + Accrued(s.bucket.rate, (s.bucket.last - s.start) as real)
  }

  ghost predicate Inv(s: State) {
    && s.bucket.Valid()
    && s.start <= s.bucket.last <= s.now
    && DebtCovered(s)
    && Conserved(s)
  }

  lemma InitInv(s: State)
    requires Init(s)
    ensures Inv(s)
  {
    AccruedSpan(s.bucket.rate, 1.0);
    forall t: int | s.now <= t ensures LevelAt(s.bucket, t) >= -(|Asleep(s.sleepers, t)| as real) {
      AccruedMono(s.bucket.rate, 0.0, (t - s.bucket.last) as real);
    }
  }

  /** Advancing to the current instant keeps the whole invariant. */
  lemma AdvanceInv(s: State)
    requires Inv(s)
    ensures Inv(s.(bucket := s.bucket.Advance(s.now)))
    ensures s.bucket.Advance(s.now).last == s.now
  {
    var b, b' := s.bucket, s.bucket.Advance(s.now);
    if s.now - b.last > 0 {
      var d := (s.now - b.last) as real;
      forall t: int | s.now <= t ensures LevelAt(b', t) >= -(|Asleep(s.sleepers, t)| as real) {
        AccruedAdd(b.rate, d, (t - s.now) as real);
        assert d + (t - s.now) as real == (t - b.last) as real;
        AccruedSpan(b.rate, 1.0);
        AccruedMono(b.rate, 0.0, (t - s.now) as real);
        assert LevelAt(b, t) >= -(|Asleep(s.sleepers, t)| as real);
      }
      AccruedAdd(b.rate, (b.last - s.start) as real, d);
      assert (b.last - s.start) as real + d == (s.now - s.start) as real;
    }
  }

  /** Any balance that is not in debt covers every future instant. */
  lemma NoDebt(s: State)
    requires s.bucket.Valid() && s.bucket.tokens >= 0.0 && s.bucket.last <= s.now
    ensures DebtCovered(s)
  {
    AccruedSpan(s.bucket.rate, 1.0);
    forall t: int | s.now <= t ensures LevelAt(s.bucket, t) >= -(|Asleep(s.sleepers, t)| as real) {
      AccruedMono(s.bucket.rate, 0.0, (t - s.bucket.last) as real);
    }
  }

  /** A reservation that goes into debt: its own timer covers the extra token. */
  lemma ReserveCovered(s: State, s': State, w: nat, token: nat)
    requires Inv(s) && s.bucket.last == s.now && w !in s.sleepers
    requires s'.bucket == s.bucket.(tokens := s.bucket.tokens - 1.0) && s'.bucket.tokens < 0.0
    requires s'.now == s.now && s'.sleepers == s.sleepers[w := Sleeper(s.now + s'.bucket.SleepNs(), token)]
    ensures DebtCovered(s')
  {
    SleepReachesFunding(s'.bucket);
    var wake := s.now + s'.bucket.SleepNs();
    forall t: int | s.now <= t ensures LevelAt(s'.bucket, t) >= -(|Asleep(s'.sleepers, t)| as real) {
      CardFlip(Asleep(s.sleepers, t), Asleep(s'.sleepers, t), w);
      if t < wake {
        assert LevelAt(s.bucket, t) >= -(|Asleep(s.sleepers, t)| as real);
      } else {
        AccruedMono(s'.bucket.rate, s'.bucket.SleepNs() as real, (t - s.now) as real);
      }
    }
  }

  lemma RemoveSleeper(sleepers: map<nat, Sleeper>, w: nat, t: int)
    requires w in sleepers
    ensures |sleepers - {w}| == |sleepers| - 1
    ensures |Asleep(sleepers - {w}, t)| == |Asleep(sleepers, t)| - (if sleepers[w].wake > t then 1 else 0)
  {
    assert (sleepers - {w}).Keys == sleepers.Keys - {w};
    CardFlip(Asleep(sleepers, t), Asleep(sleepers - {w}, t), w);
  }

  lemma AllowInv(s: State)
    requires Inv(s)
    ensures Inv(Apply(s, AllowCall))
  {
    AdvanceInv(s);
    if s.bucket.Advance(s.now).tokens >= 1.0 { NoDebt(Apply(s, AllowCall)); }
  }

  lemma WaitInv(s: State, w: nat)
    requires Inv(s) && Enabled(s, WaitCall(w))
    ensures Inv(Apply(s, WaitCall(w)))
  {
    AdvanceInv(s);
    var s' := Apply(s, WaitCall(w));
    if s'.bucket.tokens >= 0.0 {
      NoDebt(s');
    } else {
      assert s'.sleepers.Keys == s.sleepers.Keys + {w};
      ReserveCovered(s.(bucket := s.bucket.Advance(s.now)), s', w, |s.taken|);
    }
  }

  lemma WakeInv(s: State, w: nat)
    requires Inv(s) && Enabled(s, Wake(w))
    ensures Inv(Apply(s, Wake(w)))
  {
    var s' := Apply(s, Wake(w));
    RemoveSleeper(s.sleepers, w, s.now);
    forall t: int | s.now <= t ensures LevelAt(s'.bucket, t) >= -(|Asleep(s'.sleepers, t)| as real) {
      RemoveSleeper(s.sleepers, w, t);
      assert LevelAt(s.bucket, t) >= -(|Asleep(s.sleepers, t)| as real);
    }
  }

  lemma CancelInv(s: State, w: nat)
    requires Inv(s) && Enabled(s, Cancel(w))
    ensures Inv(Apply(s, Cancel(w)))
  {
    AdvanceInv(s);
    var a, s' := s.(bucket := s.bucket.Advance(s.now)), Apply(s, Cancel(w));
    RemoveSleeper(s.sleepers, w, s.now);
    if s'.bucket.tokens >= 0.0 {
      NoDebt(s');
    } else {
      forall t: int | s.now <= t ensures LevelAt(s'.bucket, t) >= -(|Asleep(s'.sleepers, t)| as real) {
        RemoveSleeper(s.sleepers, w, t);
        assert LevelAt(a.bucket, t) >= -(|Asleep(s.sleepers, t)| as real);
      }
    }
  }

  lemma StepInv(s: State, e: Event, s': State)
    requires Inv(s) && Next(s, e, s')
    ensures Inv(s')
  {
    match e
    case Tick(to) =>
    case AllowCall => AllowInv(s);
    case WaitCall(w) => WaitInv(s, w);
    case Wake(w) => WakeInv(s, w);
    case Cancel(w) => CancelInv(s, w);
  }

  lemma RunInv(ss: seq<State>, es: seq<Event>, k: nat)
    requires Run(Init, Next, ss, es) && k < |ss|
    ensures Inv(ss[k])
  {
    forall s | Init(s) ensures Inv(s) { InitInv(s); }
    forall s, e, s' | Inv(s) && Next(s, e, s') ensures Inv(s') { StepInv(s, e, s'); }
    Invariance(Init, Next, Inv, ss, es, k);
  }

  /** The token-bucket law: in every run, with sleeping and cancelled Waits, the calls let
      through since construction never exceed burst + rate * elapsed. */
  lemma TokenBucketLaw(ss: seq<State>, es: seq<Event>, k: nat)
    requires Run(Init, Next, ss, es) && k < |ss|
    ensures Admitted(ss[k]) as real
            <= ss[k].bucket.burst as real + Accrued(ss[k].bucket.rate, (ss[k].now - ss[k].start) as real)
  {
    RunInv(ss, es, k);
    var s := ss[k];
    assert LevelAt(s.bucket, s.now) >= -(|Asleep(s.sleepers, s.now)| as real);
    assert Asleep(s.sleepers, s.now) <= s.sleepers.Keys;
    CardSubset(Asleep(s.sleepers, s.now), s.sleepers.Keys);
    AccruedAdd(s.bucket.rate, (s.now - s.bucket.last) as real, (s.bucket.last - s.start) as real);
    assert (s.now - s.bucket.last) as real + (s.bucket.last - s.start) as real == (s.now - s.start) as real;
  }
}
