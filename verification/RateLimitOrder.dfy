/** pkg/ratelimit: when each token is funded, in every run; what follows for arrival order and for windows. */
module RateLimitOrder {
  import opened Collections
  import opened Runs
  import opened RateLimit

  // ----- the ledger -----

  /** Tokens in the bucket, taken and lost to the cap are the burst, what accrued and what was repaid. */
  ghost predicate Ledger(s: State) {
    && s.bucket.Valid()
    && s.start <= s.bucket.last <= s.now
    && s.lost >= 0.0
    && s.bucket.tokens + |s.taken| as real + s.lost
       == s.bucket.burst as real + Accrued(s.bucket.rate, (s.bucket.last - s.start) as real) + s.cancels as real
  }

  /** What was written down when the i-th token was taken. */
  ghost predicate ReceiptOk(s: State, i: nat)
    requires i < |s.taken|
  {
    var t := s.taken[i];
    && Accrued(s.bucket.rate, t.funded - s.start as real)
       == (i + 1) as real - s.bucket.burst as real - t.cancels as real + t.lost + t.left
    && 0.0 <= t.left <= s.bucket.burst as real - 1.0
    && t.at as real <= t.funded && (t.left > 0.0 ==> t.funded == t.at as real)
    && t.at <= s.now && t.cancels <= s.cancels && t.lost <= s.lost
  }

  ghost predicate Chronological(ts: seq<Token>) {
    forall i, j | 0 <= i < j < |ts| :: ts[i].at <= ts[j].at && ts[i].cancels <= ts[j].cancels && ts[i].lost <= ts[j].lost
  }

  /** A bucket with nothing left, and no repayment since the last token, is current again when that one is funded. */
  ghost predicate Pinned(s: State)
    requires s.bucket.Valid()
  {
    s.bucket.tokens <= 0.0 ==>
      s.taken != [] && (Last(s.taken).cancels == s.cancels ==> Last(s.taken).funded == s.bucket.Funded())
  }

  ghost predicate Booked(s: State) {
    && Ledger(s)
    && (forall i | 0 <= i < |s.taken| :: ReceiptOk(s, i))
    && Chronological(s.taken)
    && Pinned(s)
  }

  /** Refilling adds what accrued, less what the cap discards. */
  lemma AdvanceLedger(s: State)
    requires Ledger(s)
    ensures s.bucket.Spill(s.now) >= 0.0
    ensures Ledger(s.(bucket := s.bucket.Advance(s.now), lost := s.lost + s.bucket.Spill(s.now)))
    ensures s.bucket.Advance(s.now).last == s.now
  {
    var b := s.bucket;
    AccruedAdd(b.rate, (b.last - s.start) as real, (s.now - b.last) as real);
    assert (b.last - s.start) as real + (s.now - b.last) as real == (s.now - s.start) as real;
  }

  lemma StepLedger(s: State, e: Event, s': State)
    requires Ledger(s) && Next(s, e, s')
    ensures Ledger(s') && s'.lost >= s.lost
  {
    AdvanceLedger(s);
  }

  /** The balance, extrapolated to the instant of funding, is what the bucket then still holds. */
  lemma FundedLevel(b: Bucket, start: int)
    requires b.Valid()
    ensures Accrued(b.rate, b.Funded() - start as real)
            == Accrued(b.rate, (b.last - start) as real) + Pos(b.tokens) - b.tokens
    ensures b.last as real <= b.Funded()
  {
    var d := (b.last - start) as real;
    if b.tokens < 0.0 {
      var z := Span(b.rate, -b.tokens);
      AccruedSpan(b.rate, -b.tokens);
      SpanGrows(b.rate, -b.tokens);
      AccruedAdd(b.rate, d, z);
      assert b.Funded() - start as real == d + z;
    } else {
      assert b.Funded() - start as real == d;
    }
  }

  lemma SpanGrows(rate: real, k: real)
    requires rate > 0.0 && k > 0.0
    ensures Span(rate, k) > 0.0
  {
    assert k / rate > 0.0;
  }

  /** The receipt of the token a step takes. */
  lemma NewReceipt(s: State, e: Event, s': State)
    requires Ledger(s) && Next(s, e, s') && |s'.taken| > |s.taken|
    ensures s'.taken == s.taken + [s.Receipt(s'.bucket)] && ReceiptOk(s', |s.taken|)
    ensures s'.bucket == s.bucket.Reserve(s.now)
  {
    StepLedger(s, e, s');
    AdvanceLedger(s);
    FundedLevel(s'.bucket, s.start);
  }

  /** What a step keeps of the receipts already written. */
  lemma StepKeeps(s: State, e: Event, s': State)
    requires Ledger(s) && Next(s, e, s')
    ensures s'.bucket.rate == s.bucket.rate && s'.bucket.burst == s.bucket.burst && s'.start == s.start
    ensures s.now <= s'.now && s.cancels <= s'.cancels && s.lost <= s'.lost
    ensures s'.taken == s.taken || s'.taken == s.taken + [s.Receipt(s'.bucket)]
  {
    StepLedger(s, e, s');
  }

  lemma StepReceipts(s: State, e: Event, s': State)
    requires Booked(s) && Next(s, e, s')
    ensures forall i | 0 <= i < |s'.taken| :: ReceiptOk(s', i)
  {
    StepKeeps(s, e, s');
    if |s'.taken| > |s.taken| { NewReceipt(s, e, s'); }
    forall i | 0 <= i < |s'.taken| ensures ReceiptOk(s', i) {
      if i < |s.taken| { assert ReceiptOk(s, i); }
    }
  }

  lemma StepChronological(s: State, e: Event, s': State)
    requires Booked(s) && Next(s, e, s')
    ensures Chronological(s'.taken)
  {
    StepKeeps(s, e, s');
    AdvanceLedger(s);
    forall i | 0 <= i < |s.taken|
      ensures s.taken[i].at <= s.now && s.taken[i].cancels <= s.cancels && s.taken[i].lost <= s.lost
    {
      assert ReceiptOk(s, i);
    }
  }

  // ----- the funding instant while in debt -----

  /** While the bucket stays in debt, refilling does not move the funding instant. */
  lemma AdvanceFunded(b: Bucket, now: int)
    requires b.Valid() && b.Advance(now).tokens <= 0.0
    ensures b.tokens <= 0.0 && b.Advance(now).Funded() == b.Funded()
  {
    if now - b.last > 0 {
      var d := (now - b.last) as real;
      AccruedSpan(b.rate, 1.0);
      AccruedMono(b.rate, 0.0, d);
      SpanShift(b.rate, -b.tokens, d);
      SpanSplit(b.rate, 0.0, 0.0);
    }
  }

  /** Waiting d leaves exactly d less to wait for k tokens. */
  lemma SpanShift(rate: real, k: real, d: real)
    requires rate > 0.0
    ensures Span(rate, k - Accrued(rate, d)) == Span(rate, k) - d
  {
    var x := d / SECOND;
    assert Accrued(rate, d) / rate == x;
    assert (k - Accrued(rate, d)) / rate == k / rate - x;
    assert x * SECOND == d;
  }

  lemma SpanSplit(rate: real, a: real, b: real)
    requires rate > 0.0
    ensures Span(rate, a + b) == Span(rate, a) + Span(rate, b)
    ensures a == 0.0 ==> Span(rate, a) == 0.0
  {
    assert (a + b) / rate == a / rate + b / rate;
  }

  /** A token taken from a bucket with nothing left is funded 1/rate later. */
  lemma TakeFunded(b: Bucket)
    requires b.Valid() && b.tokens <= 0.0
    ensures b.(tokens := b.tokens - 1.0).Funded() == b.Funded() + Span(b.rate, 1.0)
  {
    SpanSplit(b.rate, -b.tokens, 1.0);
  }

  lemma StepPinned(s: State, e: Event, s': State)
    requires Booked(s) && Next(s, e, s')
    ensures s'.bucket.Valid() && Pinned(s')
  {
    StepLedger(s, e, s');
    if s'.bucket.tokens <= 0.0 {
      if |s'.taken| > |s.taken| {
        NewReceipt(s, e, s');
      } else if e.AllowCall? || e.Cancel? {
        if s.bucket.Advance(s.now).tokens <= 0.0 { AdvanceFunded(s.bucket, s.now); }
        if e.Cancel? && s.taken != [] { assert ReceiptOk(s, |s.taken| - 1); }
      }
    }
  }

  lemma StepBooked(s: State, e: Event, s': State)
    requires Booked(s) && Next(s, e, s')
    ensures Booked(s')
  {
    StepLedger(s, e, s');
    StepReceipts(s, e, s');
    StepChronological(s, e, s');
    StepPinned(s, e, s');
  }

  lemma InitBooked(s: State)
    requires Init(s)
    ensures Booked(s)
  {
    AccruedSpan(s.bucket.rate, 1.0);
  }

  lemma RunBooked(ss: seq<State>, es: seq<Event>, k: nat)
    requires Run(Init, Next, ss, es) && k < |ss|
    ensures Booked(ss[k])
  {
    forall s | Init(s) ensures Booked(s) { InitBooked(s); }
    forall s, e, s' | Booked(s) && Next(s, e, s') ensures Booked(s') { StepBooked(s, e, s'); }
    Invariance(Init, Next, Booked, ss, es, k);
  }

  // ----- what a call comes to -----

  /** What the bucket holds when a call at this instant has brought it current: the burst, what accrued since
      construction and what was repaid, less the tokens taken and all that the cap discarded. */
  function Balance(s: State, lost: real): real {
    s.bucket.burst as real + Accrued(s.bucket.rate, (s.now - s.start) as real) + s.cancels as real
    - |s.taken| as real - lost
  }

  /** The cap discards only what does not fit: after a step that lost anything the bucket is full, but for the token
      that the step took. */
  lemma LostOnlyWhenFull(ss: seq<State>, es: seq<Event>, k: nat)
    requires Run(Init, Next, ss, es) && k < |es|
    ensures ss[k].lost <= ss[k + 1].lost
    ensures ss[k].lost < ss[k + 1].lost ==>
              ss[k + 1].bucket.tokens + (|ss[k + 1].taken| - |ss[k].taken|) as real == ss[k].bucket.burst as real
  {
    RunBooked(ss, es, k);
    assert Next(ss[k], es[k], ss[k + 1]);
    AdvanceLedger(ss[k]);
  }

  /** An Allow of any run is granted if and only if at that instant the balance is a whole token or more; it then takes
      one, funded on the spot. */
  lemma AllowExactly(ss: seq<State>, es: seq<Event>, k: nat)
    requires Run(Init, Next, ss, es) && k < |es| && es[k] == AllowCall
    ensures var s, s' := ss[k], ss[k + 1];
            && s'.sleepers == s.sleepers && s'.waited == s.waited && s'.cancels == s.cancels && s'.now == s.now
            && if Balance(s, s'.lost) >= 1.0 then
                 s'.allowed == s.allowed + 1 && |s'.taken| == |s.taken| + 1 && Last(s'.taken).funded == s.now as real
               else s'.allowed == s.allowed && s'.taken == s.taken
  {
    RunBooked(ss, es, k);
    AdvanceLedger(ss[k]);
    assert Next(ss[k], es[k], ss[k + 1]);
  }

  /** A Wait of any run takes a token. It returns at once if and only if a whole one was there; otherwise it sleeps until
      the first whole nanosecond at or after the instant its token is funded, which has not come. */
  lemma WaitExactly(ss: seq<State>, es: seq<Event>, k: nat, w: nat)
    requires Run(Init, Next, ss, es) && k < |es| && es[k] == WaitCall(w)
    ensures w !in ss[k].sleepers
    ensures var s, s' := ss[k], ss[k + 1];
            && |s'.taken| == |s.taken| + 1 && s'.taken[..|s.taken|] == s.taken
            && s'.allowed == s.allowed && s'.cancels == s.cancels && s'.now == s.now
            && var t := Last(s'.taken);
               if Balance(s, s'.lost) >= 1.0 then
                 s'.waited == s.waited + 1 && s'.sleepers == s.sleepers && t.funded == s.now as real
               else
                 && s'.waited == s.waited
                 && s'.sleepers.Keys == s.sleepers.Keys + {w} && s'.sleepers[w].token == |s.taken|
                 && (forall v | v in s.sleepers :: s'.sleepers[v] == s.sleepers[v])
                 && s.now as real < t.funded <= s'.sleepers[w].wake as real < t.funded + 1.0
  {
    RunBooked(ss, es, k);
    AdvanceLedger(ss[k]);
    assert Next(ss[k], es[k], ss[k + 1]);
    var b := ss[k + 1].bucket;
    RunBooked(ss, es, k + 1);
    SleepReachesFunding(b);
    if b.tokens < 0.0 { SpanGrows(b.rate, -b.tokens); }
  }

  /** A sleeper's timer is set to the first whole nanosecond at or after the instant its token is funded. */
  ghost predicate TimersSet(s: State) {
    forall w | w in s.sleepers ::
      && s.sleepers[w].token < |s.taken|
      && s.taken[s.sleepers[w].token].funded <= s.sleepers[w].wake as real
      && s.sleepers[w].wake as real < s.taken[s.sleepers[w].token].funded + 1.0
  }

  lemma StepTimers(ss: seq<State>, es: seq<Event>, k: nat)
    requires Run(Init, Next, ss, es) && k < |es| && TimersSet(ss[k])
    ensures TimersSet(ss[k + 1])
  {
    assert Next(ss[k], es[k], ss[k + 1]);
    if es[k].WaitCall? { WaitExactly(ss, es, k, es[k].w); }
  }

  /** A sleeping Wait may return nil exactly from the instant its token is funded, and then counts as let through; it may
      give its token back at any time. */
  lemma SleepEnds(ss: seq<State>, es: seq<Event>, k: nat, w: nat)
    requires Run(Init, Next, ss, es) && k < |ss| && w in ss[k].sleepers
    ensures ss[k].sleepers[w].token < |ss[k].taken|
    ensures Enabled(ss[k], Wake(w)) <==> ss[k].taken[ss[k].sleepers[w].token].funded <= ss[k].now as real
    ensures Enabled(ss[k], Cancel(w))
    ensures k < |es| && es[k] == Wake(w) ==>
              ss[k + 1] == ss[k].(sleepers := ss[k].sleepers - {w}, waited := ss[k].waited + 1)
    ensures k < |es| && es[k] == Cancel(w) ==>
              && ss[k + 1].sleepers == ss[k].sleepers - {w} && ss[k + 1].waited == ss[k].waited
              && ss[k + 1].cancels == ss[k].cancels + 1 && ss[k + 1].taken == ss[k].taken
              && ss[k + 1].repaid == ss[k].repaid + {ss[k].sleepers[w].token}
  {
    forall i | 0 <= i < k && TimersSet(ss[i]) ensures TimersSet(ss[i + 1]) { StepTimers(ss, es, i); }
    FromThenOn(TimersSet, ss, 0, k);
    if k < |es| { assert Next(ss[k], es[k], ss[k + 1]); }
  }

  // ----- every funding instant, in closed form -----

  /** In every run the i-th token is funded when, since construction, as many tokens have accrued as were taken
      up to it beyond the burst, not counting repayments, and adding what the cap discarded and what it left. */
  lemma FundingFormula(ss: seq<State>, es: seq<Event>, k: nat, i: nat)
    requires Run(Init, Next, ss, es) && k < |ss| && i < |ss[k].taken|
    ensures var s, t := ss[k], ss[k].taken[i];
            && s.bucket.rate > 0.0
            && t.funded
               == s.start as real
                  + Span(s.bucket.rate, (i + 1) as real - s.bucket.burst as real - t.cancels as real + t.lost + t.left)
  {
    RunBooked(ss, es, k);
    var s, t := ss[k], ss[k].taken[i];
    assert ReceiptOk(s, i);
    var x := t.funded - s.start as real;
    SpanShift(s.bucket.rate, Accrued(s.bucket.rate, x), x);
    SpanSplit(s.bucket.rate, 0.0, 0.0);
  }

  /** Tokens that accrue between the funding instants of two tokens: those taken after the first up to the second,
      less those repaid between, plus what the cap discarded between and what the second left more than the first. With
      the two exchanged, the same with the signs reversed. */
  lemma Spacing(ss: seq<State>, es: seq<Event>, k: nat, lo: nat, hi: nat)
    requires Run(Init, Next, ss, es) && k < |ss| && lo < |ss[k].taken| && hi < |ss[k].taken|
    ensures var f, l := ss[k].taken[lo], ss[k].taken[hi];
            && ss[k].bucket.rate > 0.0
            && (lo <= hi ==> f.cancels <= l.cancels && f.lost <= l.lost)
            && 0.0 <= f.left <= ss[k].bucket.burst as real - 1.0 && 0.0 <= l.left
            && Accrued(ss[k].bucket.rate, l.funded - f.funded)
               == (hi - lo) as real - (l.cancels as real - f.cancels as real) + (l.lost - f.lost) + (l.left - f.left)
  {
    RunBooked(ss, es, k);
    var s, f, l := ss[k], ss[k].taken[lo], ss[k].taken[hi];
    assert ReceiptOk(s, lo) && ReceiptOk(s, hi);
    AccruedAdd(s.bucket.rate, l.funded - s.start as real, f.funded - s.start as real);
    assert l.funded - s.start as real - (f.funded - s.start as real) == l.funded - f.funded;
  }

  lemma SpacingBound(ss: seq<State>, es: seq<Event>, k: nat, lo: nat, hi: nat)
    requires Run(Init, Next, ss, es) && k < |ss| && lo <= hi < |ss[k].taken|
    ensures (hi - lo + 1) as real
            <= ss[k].bucket.burst as real + Accrued(ss[k].bucket.rate, ss[k].taken[hi].funded - ss[k].taken[lo].funded)
               + (ss[k].taken[hi].cancels as real - ss[k].taken[lo].cancels as real)
  {
    Spacing(ss, es, k, lo, hi);
  }

  lemma AccruedSign(rate: real, d: real)
    requires rate > 0.0
    ensures Accrued(rate, d) < 0.0 <==> d < 0.0
  {
    var x := d / SECOND;
    if d < 0.0 { assert x < 0.0 && x * rate < 0.0; } else { AccruedSpan(rate, 1.0); AccruedMono(rate, 0.0, d); }
  }

  // ----- arrival order -----

  /** Overtaking, exactly: in every run a later token is funded before an earlier one if and only if the repayments
      between them, and what the earlier one left, exceed the tokens taken since, what the cap discarded between and
      what the later one left. */
  lemma Overtaking(ss: seq<State>, es: seq<Event>, k: nat, lo: nat, hi: nat)
    requires Run(Init, Next, ss, es) && k < |ss| && lo < hi < |ss[k].taken|
    ensures var f, l := ss[k].taken[lo], ss[k].taken[hi];
            l.funded < f.funded
            <==> (l.cancels - f.cancels) as real + f.left > (hi - lo) as real + (l.lost - f.lost) + l.left
  {
    Spacing(ss, es, k, lo, hi);
    AccruedSign(ss[k].bucket.rate, ss[k].taken[hi].funded - ss[k].taken[lo].funded);
  }

  /** Arrival order, in every run: a token is never funded before an earlier one unless more tokens were repaid than
      taken between them. And a Wait that finds nothing left is funded exactly 1/rate after the token before it,
      unless one was repaid since. */
  lemma ArrivalOrder(ss: seq<State>, es: seq<Event>, k: nat)
    requires Run(Init, Next, ss, es) && k < |es|
    ensures forall lo, hi | 0 <= lo < hi < |ss[k].taken| && ss[k].taken[hi].cancels - ss[k].taken[lo].cancels <= hi - lo ::
              ss[k].taken[lo].funded <= ss[k].taken[hi].funded
    ensures es[k].WaitCall? && ss[k].bucket.Advance(ss[k].now).tokens <= 0.0 ==>
              && ss[k].taken != [] && ss[k + 1].taken != []
              && (Last(ss[k].taken).cancels == ss[k].cancels ==>
                    Last(ss[k + 1].taken).funded == Last(ss[k].taken).funded + Span(ss[k].bucket.rate, 1.0))
  {
    RunBooked(ss, es, k);
    var s := ss[k];
    assert Next(s, es[k], ss[k + 1]);
    forall lo, hi | 0 <= lo < hi < |s.taken| && s.taken[hi].cancels - s.taken[lo].cancels <= hi - lo
      ensures s.taken[lo].funded <= s.taken[hi].funded
    {
      Overtaking(ss, es, k, lo, hi);
      Spacing(ss, es, k, lo, hi);
      assert ReceiptOk(s, lo) && ReceiptOk(s, hi);
    }
    if es[k].WaitCall? && s.bucket.Advance(s.now).tokens <= 0.0 {
      AdvanceFunded(s.bucket, s.now);
      TakeFunded(s.bucket.Advance(s.now));
    }
  }

  // ----- pairs of tokens -----

  /** The repayments between two tokens fit into what the burst leaves room for. */
  ghost predicate Affordable(burst: int, f: Token, l: Token) {
    l.cancels as real - f.cancels as real + f.left + 1.0 <= burst as real + l.left + (l.lost - f.lost)
  }

  /** The law between two tokens, exactly: in every run the tokens from one to another number at most
      burst + rate * (the time between their funding instants) if and only if the repayments between are affordable. */
  lemma PairLaw(ss: seq<State>, es: seq<Event>, k: nat, lo: nat, hi: nat)
    requires Run(Init, Next, ss, es) && k < |ss| && lo <= hi < |ss[k].taken|
    ensures var s, f, l := ss[k], ss[k].taken[lo], ss[k].taken[hi];
            && ((hi - lo + 1) as real <= s.bucket.burst as real + Accrued(s.bucket.rate, l.funded - f.funded)
                <==> Affordable(s.bucket.burst, f, l))
            && (l.cancels == f.cancels ==> Affordable(s.bucket.burst, f, l))
  {
    Spacing(ss, es, k, lo, hi);
  }

  ghost function Surviving(s: State, lo: nat, hi: nat): set<nat> { set i: nat | lo <= i <= hi && i !in s.repaid }

  ghost function Returned(s: State, lo: nat, hi: nat): set<nat> { set i: nat | lo <= i <= hi && i in s.repaid }

  /** The same for the tokens that were not given back: each one given back among them pays for one repayment. */
  lemma SurvivorLaw(ss: seq<State>, es: seq<Event>, k: nat, lo: nat, hi: nat)
    requires Run(Init, Next, ss, es) && k < |ss| && lo <= hi < |ss[k].taken|
    ensures var s, f, l := ss[k], ss[k].taken[lo], ss[k].taken[hi];
            |Surviving(s, lo, hi)| as real <= s.bucket.burst as real + Accrued(s.bucket.rate, l.funded - f.funded)
            <==> l.cancels as real - f.cancels as real + f.left + 1.0
                 <= s.bucket.burst as real + l.left + (l.lost - f.lost) + |Returned(s, lo, hi)| as real
  {
    Spacing(ss, es, k, lo, hi);
    SurvivorCount(ss[k], lo, hi);
  }

  predicate Between(lo: nat, i: nat, hi: nat) { lo <= i <= hi }

  ghost function Positions(lo: nat, hi: nat): set<nat> { set i: nat | i <= hi && Between(lo, i, hi) }

  lemma {:induction false} PositionCount(lo: nat, hi: nat)
    requires lo <= hi
    ensures |Positions(lo, hi)| == hi - lo + 1
  {
    if lo == hi {
      assert Positions(lo, hi) == {lo};
    } else {
      PositionCount(lo, hi - 1);
      assert Positions(lo, hi) == Positions(lo, hi - 1) + {hi};
    }
  }

  lemma SurvivorCount(s: State, lo: nat, hi: nat)
    requires lo <= hi
    ensures |Surviving(s, lo, hi)| + |Returned(s, lo, hi)| == hi - lo + 1
  {
    PositionCount(lo, hi);
    assert Positions(lo, hi) == Surviving(s, lo, hi) + Returned(s, lo, hi);
  }

  // ----- one episode of debt -----

  /** The next caller would find nothing in the bucket. */
  predicate Indebted(s: State) { s.bucket.Advance(s.now).tokens <= 0.0 }

  predicate TakesAt(ss: seq<State>, i: nat) { i + 1 < |ss| && |ss[i + 1].taken| == |ss[i].taken| + 1 }

  /** Receipts are never changed, and the limits are fixed. */
  lemma {:induction false} ReceiptsKept(ss: seq<State>, es: seq<Event>, j: nat, k: nat)
    requires Run(Init, Next, ss, es) && j <= k < |ss|
    ensures ss[j].taken <= ss[k].taken && ss[j].cancels <= ss[k].cancels
    ensures ss[k].bucket.rate == ss[j].bucket.rate && ss[k].bucket.burst == ss[j].bucket.burst
    decreases k
  {
    if j < k {
      ReceiptsKept(ss, es, j, k - 1);
      assert Next(ss[k - 1], es[k - 1], ss[k - 1 + 1]);
    }
  }

  /** A bucket with nothing left loses nothing to the cap, not even of a repayment. */
  lemma {:induction false} DebtLosesNothing(ss: seq<State>, es: seq<Event>, i: nat, j: nat)
    requires Run(Init, Next, ss, es) && i <= j < |ss| && forall m | i <= m < j :: Indebted(ss[m])
    ensures ss[j].lost == ss[i].lost
    decreases j
  {
    if i < j {
      DebtLosesNothing(ss, es, i, j - 1);
      RunBooked(ss, es, j - 1);
      assert Next(ss[j - 1], es[j - 1], ss[j - 1 + 1]) && Indebted(ss[j - 1]);
    }
  }

  lemma EpisodeReceipts(ss: seq<State>, es: seq<Event>, i: nat, j: nat, k: nat)
    requires Run(Init, Next, ss, es) && i < j < k < |ss| && TakesAt(ss, i) && TakesAt(ss, j)
    requires forall m | i < m <= j :: Indebted(ss[m])
    ensures |ss[i].taken| < |ss[j].taken| < |ss[k].taken|
    ensures var f, l := ss[k].taken[|ss[i].taken|], ss[k].taken[|ss[j].taken|];
            && f.left == l.left == 0.0 && f.lost == l.lost
            && f.cancels == ss[i].cancels && l.cancels == ss[j].cancels
  {
    RunBooked(ss, es, i);
    RunBooked(ss, es, j);
    assert Next(ss[i], es[i], ss[i + 1]) && Next(ss[j], es[j], ss[j + 1]);
    NewReceipt(ss[i], es[i], ss[i + 1]);
    NewReceipt(ss[j], es[j], ss[j + 1]);
    ReceiptsKept(ss, es, i + 1, j);
    ReceiptsKept(ss, es, j + 1, k);
    assert Indebted(ss[i + 1]) && Indebted(ss[j]);
    DebtLosesNothing(ss, es, i + 1, j + 1);
  }

  /** Two tokens of one episode of debt, with n tokens taken after the first up to the second and c repaid between:
      they are funded exactly (n - c)/rate apart; the second overtakes the first if and only if c > n; together
      with those between they obey the bucket law if and only if c < burst; and so do the survivors among them if and
      only if c less the tokens given back among them is below burst. */
  lemma DebtEpisode(ss: seq<State>, es: seq<Event>, i: nat, j: nat, k: nat)
    requires Run(Init, Next, ss, es) && i < j < k < |ss| && TakesAt(ss, i) && TakesAt(ss, j)
    requires forall m | i < m <= j :: Indebted(ss[m])
    ensures |ss[i].taken| < |ss[j].taken| < |ss[k].taken| && ss[k].bucket.rate > 0.0
    ensures var s, lo, hi := ss[k], |ss[i].taken|, |ss[j].taken|;
            var f, l, n, c := s.taken[lo], s.taken[hi], hi - lo, ss[j].cancels - ss[i].cancels;
            && l.funded == f.funded + Span(s.bucket.rate, (n - c) as real)
            && (l.funded < f.funded <==> c > n)
            && ((n + 1) as real <= s.bucket.burst as real + Accrued(s.bucket.rate, l.funded - f.funded)
                <==> c < s.bucket.burst)
            && (|Surviving(s, lo, hi)| as real
                <= s.bucket.burst as real + Accrued(s.bucket.rate, l.funded - f.funded)
                <==> c - |Returned(s, lo, hi)| < s.bucket.burst)
  {
    EpisodeReceipts(ss, es, i, j, k);
    var s, lo, hi := ss[k], |ss[i].taken|, |ss[j].taken|;
    var f, l := s.taken[lo], s.taken[hi];
    Spacing(ss, es, k, lo, hi);
    Overtaking(ss, es, k, lo, hi);
    PairLaw(ss, es, k, lo, hi);
    SurvivorLaw(ss, es, k, lo, hi);
    var x := l.funded - f.funded;
    SpanShift(s.bucket.rate, Accrued(s.bucket.rate, x), x);
    SpanSplit(s.bucket.rate, 0.0, 0.0);
  }

  // ----- windows -----

  /** Positions of the tokens funded in the window (a, b]. */
  ghost function InWindow(ts: seq<Token>, a: real, b: real): set<nat> {
    set i: nat | i < |ts| && a < ts[i].funded <= b
  }

  lemma Least(s: set<nat>) returns (m: nat)
    requires s != {}
    ensures m in s && forall i | i in s :: m <= i
  {
    m :| m in s;
    if s != {m} {
      var n := Least(s - {m});
      assert s == (s - {m}) + {m};
      if n < m { m := n; }
    }
  }

  lemma Greatest(s: set<nat>) returns (m: nat)
    requires s != {}
    ensures m in s && forall i | i in s :: i <= m
  {
    m :| m in s;
    if s != {m} {
      var n := Greatest(s - {m});
      assert s == (s - {m}) + {m};
      if n > m { m := n; }
    }
  }

  /** Tokens of a window, some of them: their first and last are funded within its length, and they are at most all
      from the first to the last. */
  lemma WindowEnds(s: State, a: real, b: real, w: set<nat>) returns (lo: nat, hi: nat)
    requires s.bucket.Valid() && w != {} && w <= InWindow(s.taken, a, b)
    ensures lo in w && hi in w && lo <= hi < |s.taken| && w <= Positions(lo, hi) && |w| <= hi - lo + 1
    ensures forall i | i in w :: lo <= i <= hi
    ensures Accrued(s.bucket.rate, s.taken[hi].funded - s.taken[lo].funded) <= Accrued(s.bucket.rate, b - a)
  {
    lo := Least(w);
    hi := Greatest(w);
    PositionCount(lo, hi);
    CardSubset(w, Positions(lo, hi));
    AccruedMono(s.bucket.rate, s.taken[hi].funded - s.taken[lo].funded, b - a);
  }

  /** The tokens funded in the window obey the token-bucket law. */
  ghost predicate Lawful(s: State, a: real, b: real) {
    |InWindow(s.taken, a, b)| as real <= s.bucket.burst as real + Accrued(s.bucket.rate, b - a)
  }

  /** The per-window law, in every run and for any mix of Allow and Wait: the tokens funded in a window (a, b] number
      at most burst + rate * (b - a) plus the repayments made, so without a cancelled Wait the law holds as promised;
      and it holds whenever the repayments between any two tokens of the window are affordable. */
  lemma WindowLaw(ss: seq<State>, es: seq<Event>, k: nat, a: real, b: real)
    requires Run(Init, Next, ss, es) && k < |ss| && a <= b
    ensures |InWindow(ss[k].taken, a, b)| as real
            <= ss[k].bucket.burst as real + Accrued(ss[k].bucket.rate, b - a) + ss[k].cancels as real
    ensures var w := InWindow(ss[k].taken, a, b);
            (forall lo, hi | lo in w && hi in w && lo <= hi ::
               Affordable(ss[k].bucket.burst, ss[k].taken[lo], ss[k].taken[hi]))
            ==> Lawful(ss[k], a, b)
  {
    var s, w := ss[k], InWindow(ss[k].taken, a, b);
    RunBooked(ss, es, k);
    AccruedSpan(s.bucket.rate, 1.0);
    AccruedMono(s.bucket.rate, 0.0, b - a);
    if w != {} {
      var lo, hi := WindowEnds(s, a, b, w);
      SpacingBound(ss, es, k, lo, hi);
      PairLaw(ss, es, k, lo, hi);
      assert ReceiptOk(s, hi);
    }
  }

  /** Tokens funded from the instant of one token to that of another, both included. */
  ghost function FundedBetween(ts: seq<Token>, p: nat, q: nat): set<nat>
    requires p < |ts| && q < |ts|
  {
    set i: nat | i < |ts| && ts[p].funded <= ts[i].funded <= ts[q].funded
  }

  /** If too many tokens are funded from p to q, the window that opens just before p breaks the law. */
  lemma JustBefore(s: State, p: nat, q: nat) returns (a: real)
    requires s.bucket.Valid() && p < |s.taken| && q < |s.taken| && s.taken[p].funded <= s.taken[q].funded
    requires |FundedBetween(s.taken, p, q)| as real
             > s.bucket.burst as real + Accrued(s.bucket.rate, s.taken[q].funded - s.taken[p].funded)
    ensures a < s.taken[p].funded && !Lawful(s, a, s.taken[q].funded)
  {
    var f, l, rate := s.taken[p], s.taken[q], s.bucket.rate;
    var gap := |FundedBetween(s.taken, p, q)| as real - s.bucket.burst as real - Accrued(rate, l.funded - f.funded);
    var z := Span(rate, gap / 2.0);
    SpanGrows(rate, gap / 2.0);
    AccruedSpan(rate, gap / 2.0);
    a := f.funded - z;
    AccruedAdd(rate, l.funded - f.funded, z);
    assert l.funded - f.funded + z == l.funded - a;
    CardSubset(FundedBetween(s.taken, p, q), InWindow(s.taken, a, l.funded));
  }

  /** The first and the last token of a window, by funding instant. */
  lemma {:induction false} Extremes(ts: seq<Token>, w: set<nat>) returns (p: nat, q: nat)
    requires w != {} && forall i | i in w :: i < |ts|
    ensures p in w && q in w && forall i | i in w :: ts[p].funded <= ts[i].funded <= ts[q].funded
    decreases |w|
  {
    var m :| m in w;
    p, q := m, m;
    if w != {m} {
      p, q := Extremes(ts, w - {m});
      assert w == (w - {m}) + {m};
      if ts[m].funded < ts[p].funded { p := m; }
      if ts[m].funded > ts[q].funded { q := m; }
    }
  }

  /** Repayments between two tokens against the burst, counting the strays: tokens funded between the two though not
      taken between them, less those taken between and funded outside. */
  ghost predicate Fits(s: State, p: nat, q: nat)
    requires p < |s.taken| && q < |s.taken|
  {
    var f, l, strays := s.taken[p], s.taken[q], |FundedBetween(s.taken, p, q)| - (q - p + 1);
    strays as real + (l.cancels as real - f.cancels as real) + f.left + 1.0
    <= s.bucket.burst as real + l.left + (l.lost - f.lost)
  }

  lemma FitsIsLaw(ss: seq<State>, es: seq<Event>, k: nat, p: nat, q: nat)
    requires Run(Init, Next, ss, es) && k < |ss| && p < |ss[k].taken| && q < |ss[k].taken|
    ensures var s := ss[k];
            Fits(s, p, q)
            <==> |FundedBetween(s.taken, p, q)| as real
                 <= s.bucket.burst as real + Accrued(s.bucket.rate, s.taken[q].funded - s.taken[p].funded)
  {
    Spacing(ss, es, k, p, q);
  }

  ghost predicate AllFit(s: State) {
    forall p, q | 0 <= p < |s.taken| && 0 <= q < |s.taken| && s.taken[p].funded <= s.taken[q].funded :: Fits(s, p, q)
  }

  /** The tokens of a window are among those funded from its first to its last. */
  lemma WindowBetween(s: State, a: real, b: real) returns (p: nat, q: nat)
    requires s.bucket.Valid() && InWindow(s.taken, a, b) != {}
    ensures p < |s.taken| && q < |s.taken| && s.taken[p].funded <= s.taken[q].funded
    ensures |InWindow(s.taken, a, b)| <= |FundedBetween(s.taken, p, q)|
    ensures Accrued(s.bucket.rate, s.taken[q].funded - s.taken[p].funded) <= Accrued(s.bucket.rate, b - a)
  {
    p, q := Extremes(s.taken, InWindow(s.taken, a, b));
    CardSubset(InWindow(s.taken, a, b), FundedBetween(s.taken, p, q));
    AccruedMono(s.bucket.rate, s.taken[q].funded - s.taken[p].funded, b - a);
  }

  /** A window that breaks the law has a first and a last token that do not fit. */
  lemma Misfits(ss: seq<State>, es: seq<Event>, k: nat, a: real, b: real) returns (p: nat, q: nat)
    requires Run(Init, Next, ss, es) && k < |ss| && a <= b && !Lawful(ss[k], a, b)
    ensures p < |ss[k].taken| && q < |ss[k].taken| && ss[k].taken[p].funded <= ss[k].taken[q].funded
    ensures !Fits(ss[k], p, q)
  {
    RunValid(ss, es, k);
    NotEmpty(ss[k], a, b);
    p, q := WindowBetween(ss[k], a, b);
    TooMany(ss[k], a, b, p, q);
    FitsIsLaw(ss, es, k, p, q);
  }

  lemma RunValid(ss: seq<State>, es: seq<Event>, k: nat)
    requires Run(Init, Next, ss, es) && k < |ss|
    ensures ss[k].bucket.Valid()
  {
    RunBooked(ss, es, k);
  }

  lemma NotEmpty(s: State, a: real, b: real)
    requires s.bucket.Valid() && a <= b && !Lawful(s, a, b)
    ensures InWindow(s.taken, a, b) != {}
  {
    AccruedSpan(s.bucket.rate, 1.0);
    AccruedMono(s.bucket.rate, 0.0, b - a);
  }

  lemma TooMany(s: State, a: real, b: real, p: nat, q: nat)
    requires p < |s.taken| && q < |s.taken| && !Lawful(s, a, b)
    requires |InWindow(s.taken, a, b)| <= |FundedBetween(s.taken, p, q)|
    requires Accrued(s.bucket.rate, s.taken[q].funded - s.taken[p].funded) <= Accrued(s.bucket.rate, b - a)
    ensures |FundedBetween(s.taken, p, q)| as real
            > s.bucket.burst as real + Accrued(s.bucket.rate, s.taken[q].funded - s.taken[p].funded)
  {
  }

  /** All windows of a run obey the law if and only if those from the funding instant of one token to that of another do,
      told by the ledger: the repayments between the two and the strays fit. */
  lemma WindowLawExactly(ss: seq<State>, es: seq<Event>, k: nat)
    requires Run(Init, Next, ss, es) && k < |ss|
    ensures (forall a, b | a <= b :: Lawful(ss[k], a, b)) <==> AllFit(ss[k])
  {
    var s := ss[k];
    RunValid(ss, es, k);
    if AllFit(s) {
      forall a, b | a <= b ensures Lawful(s, a, b) {
        if !Lawful(s, a, b) {
          var p, q := Misfits(ss, es, k, a, b);
          assert false;
        }
      }
    } else {
      var p, q :| 0 <= p < |s.taken| && 0 <= q < |s.taken| && s.taken[p].funded <= s.taken[q].funded && !Fits(s, p, q);
      FitsIsLaw(ss, es, k, p, q);
      var a := JustBefore(s, p, q);
    }
  }

  lemma FitsAffordable(s: State, lo: nat, hi: nat)
    requires lo <= hi < |s.taken| && Fits(s, lo, hi)
    requires forall i, j | 0 <= i < j < |s.taken| :: s.taken[i].funded <= s.taken[j].funded
    ensures Affordable(s.bucket.burst, s.taken[lo], s.taken[hi])
  {
    PositionCount(lo, hi);
    CardSubset(Positions(lo, hi), FundedBetween(s.taken, lo, hi));
  }

  /** As long as nobody has overtaken there are no harmful strays, and the condition is the plain one: all windows obey
      the law if and only if the repayments between any two tokens are affordable. */
  lemma WindowLawInOrder(ss: seq<State>, es: seq<Event>, k: nat)
    requires Run(Init, Next, ss, es) && k < |ss|
    requires forall i, j | 0 <= i < j < |ss[k].taken| :: ss[k].taken[i].funded <= ss[k].taken[j].funded
    ensures (forall a, b | a <= b :: Lawful(ss[k], a, b))
            <==> (forall lo, hi | 0 <= lo <= hi < |ss[k].taken| ::
                    Affordable(ss[k].bucket.burst, ss[k].taken[lo], ss[k].taken[hi]))
  {
    var s := ss[k];
    if forall a, b | a <= b :: Lawful(s, a, b) {
      WindowLawExactly(ss, es, k);
      forall lo, hi | 0 <= lo <= hi < |s.taken| ensures Affordable(s.bucket.burst, s.taken[lo], s.taken[hi]) {
        assert Fits(s, lo, hi);
        FitsAffordable(s, lo, hi);
      }
    }
    if forall lo, hi | 0 <= lo <= hi < |s.taken| :: Affordable(s.bucket.burst, s.taken[lo], s.taken[hi]) {
      forall a, b | a <= b ensures Lawful(s, a, b) { WindowLaw(ss, es, k, a, b); }
    }
  }

  // ----- windows of the tokens that were not given back -----

  /** Every repayment gives back a token of its own. */
  ghost predicate OwnTokens(s: State) {
    && |s.repaid| == s.cancels && (forall i | i in s.repaid :: i < |s.taken|)
    && (forall w | w in s.sleepers :: s.sleepers[w].token < |s.taken| && s.sleepers[w].token !in s.repaid)
    && (forall w, v | w in s.sleepers && v in s.sleepers && s.sleepers[w].token == s.sleepers[v].token :: w == v)
  }

  /** A token's receipt counts repayments of earlier tokens only. */
  ghost predicate EarlierOnly(s: State) {
    && (forall i | 0 < i < |s.taken| :: s.taken[i].cancels <= |Returned(s, 0, i - 1)|)
    && (s.taken != [] ==> s.taken[0].cancels == 0)
  }

  ghost predicate Returns(s: State) { OwnTokens(s) && EarlierOnly(s) }

  lemma StepOwnTokens(s: State, e: Event, s': State)
    requires OwnTokens(s) && Next(s, e, s')
    ensures OwnTokens(s') && s.repaid <= s'.repaid
  {
    match e
    case Tick(_) =>
    case AllowCall =>
    case WaitCall(w) => WaitOwnTokens(s, w);
    case Wake(_) =>
    case Cancel(w) => CancelOwnTokens(s, w);
  }

  lemma CancelOwnTokens(s: State, w: nat)
    requires OwnTokens(s) && Enabled(s, Cancel(w))
    ensures OwnTokens(Apply(s, Cancel(w)))
  {
    assert s.sleepers[w].token !in s.repaid;
  }

  lemma WaitOwnTokens(s: State, w: nat)
    requires OwnTokens(s) && Enabled(s, WaitCall(w))
    ensures OwnTokens(Apply(s, WaitCall(w)))
  {
    var s' := Apply(s, WaitCall(w));
    assert |s'.taken| == |s.taken| + 1;
    assert forall v | v in s'.sleepers && v != w :: v in s.sleepers && s'.sleepers[v] == s.sleepers[v];
  }

  lemma StepReturns(s: State, e: Event, s': State)
    requires Returns(s) && Next(s, e, s')
    ensures Returns(s')
  {
    StepOwnTokens(s, e, s');
    assert |s'.taken| > |s.taken| ==> s'.taken == s.taken + [s.Receipt(s'.bucket)] && s'.repaid == s.repaid;
    forall i | 0 < i < |s'.taken| ensures s'.taken[i].cancels <= |Returned(s', 0, i - 1)| {
      CardSubset(Returned(s, 0, i - 1), Returned(s', 0, i - 1));
      if i == |s.taken| { assert Returned(s, 0, i - 1) == s.repaid; }
    }
    if s.taken == [] { assert s.repaid == {}; }
  }

  lemma RunReturns(ss: seq<State>, es: seq<Event>, k: nat)
    requires Run(Init, Next, ss, es) && k < |ss|
    ensures Returns(ss[k])
  {
    forall s, e, s' | Returns(s) && Next(s, e, s') ensures Returns(s') { StepReturns(s, e, s'); }
    Invariance(Init, Next, Returns, ss, es, k);
  }

  /** Tokens given back among those taken before the given one. */
  ghost function Before(s: State, first: nat): set<nat> { set i | i in s.repaid && i < first }

  /** The tokens funded in the window (a, b] that were not given back. */
  ghost function KeptIn(s: State, a: real, b: real): set<nat> { InWindow(s.taken, a, b) - s.repaid }

  /** Tokens w between two others, none of them given back: w and the repayments counted between the two are at most
      all the tokens between and those given back among the tokens taken earlier. */
  lemma KeptAmong(s: State, w: set<nat>, lo: nat, hi: nat)
    requires Returns(s) && lo <= hi < |s.taken| && w <= Positions(lo, hi) && w !! s.repaid
    ensures |w| + s.taken[hi].cancels <= hi - lo + 1 + |Before(s, lo)|
  {
    assert forall i | i in w :: Between(lo, i, hi);
    CardSubset(w, Surviving(s, lo, hi));
    SurvivorCount(s, lo, hi);
    if hi > 0 { CardSubset(Returned(s, 0, hi - 1), Before(s, lo) + Returned(s, lo, hi)); }
  }

  lemma KeptBetween(ss: seq<State>, es: seq<Event>, k: nat, w: set<nat>, lo: nat, hi: nat)
    requires Run(Init, Next, ss, es) && k < |ss| && lo <= hi < |ss[k].taken|
    requires w <= Positions(lo, hi) && w !! ss[k].repaid
    ensures |w| as real
            <= ss[k].bucket.burst as real + Accrued(ss[k].bucket.rate, ss[k].taken[hi].funded - ss[k].taken[lo].funded)
               + |Before(ss[k], lo)| as real
  {
    RunReturns(ss, es, k);
    KeptAmong(ss[k], w, lo, hi);
    SpacingBound(ss, es, k, lo, hi);
  }

  /** The tokens of a window that were not given back number at most burst + rate * (b - a) plus those given back
      among the tokens taken before the first of them: a Wait that comes later and gives up costs the window nothing. */
  lemma SurvivorWindowLaw(ss: seq<State>, es: seq<Event>, k: nat, a: real, b: real, first: nat)
    requires Run(Init, Next, ss, es) && k < |ss|
    requires first in KeptIn(ss[k], a, b) && forall i | i in KeptIn(ss[k], a, b) :: first <= i
    ensures |KeptIn(ss[k], a, b)| as real
            <= ss[k].bucket.burst as real + Accrued(ss[k].bucket.rate, b - a) + |Before(ss[k], first)| as real
  {
    RunBooked(ss, es, k);
    var w := KeptIn(ss[k], a, b);
    var lo, hi := WindowEnds(ss[k], a, b, w);
    assert lo == first;
    KeptBetween(ss, es, k, w, lo, hi);
  }
}
