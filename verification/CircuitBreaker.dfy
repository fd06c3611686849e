/** pkg/circuitbreaker: the closed/open/half-open machine among overlapping calls. */
module CircuitBreaker {
  import opened Collections
  import opened Runs

  datatype Position = Closed | Open | HalfOpen

  /** The fields of a Breaker and, as functions, its lock-protected bodies. Instants are integer
      nanoseconds; the generation counter is unbounded. */
  datatype Core = Core(failureThreshold: int, successThreshold: int, openTimeout: int,
                       state: Position, generation: nat,
                       failures: int, successes: int, inFlight: int, openedAt: int)
  {
    ghost predicate Configured() {
      failureThreshold >= 1 && successThreshold >= 1 && openTimeout >= 1
    }

    function Transition(to: Position, now: int): Core {
      this.(state := to, generation := generation + 1, failures := 0, successes := 0, inFlight := 0,
            openedAt := if to == Open then now else openedAt)
    }

    /** The admission decision: the generation the call runs under, or None for ErrOpen. */
    function Admit(now: int): (Core, Option<nat>) {
      if state == Open && now - openedAt < openTimeout then (this, None)
      else
        var b := if state == Open then Transition(HalfOpen, now) else this;
        if b.state == HalfOpen then
          if b.successes + b.inFlight >= b.successThreshold then (b, None)
          else (b.(inFlight := b.inFlight + 1), Some(b.generation))
        else (b, Some(b.generation))
    }

    /** The outcome of a call admitted under `gen`. */
    function Record(gen: nat, success: bool, now: int): Core {
      if gen != generation then this
      else match state
        case Closed =>
          if success then this.(failures := 0)
          else if failures + 1 >= failureThreshold then Transition(Open, now)
          else this.(failures := failures + 1)
        case HalfOpen =>
          if !success then Transition(Open, now)
          else if successes + 1 >= successThreshold then Transition(Closed, now)
          else this.(inFlight := inFlight - 1, successes := successes + 1)
        case Open => this
    }

    /** What State reports at `now`. */
    function Report(now: int): Position {
      if state == Open && now - openedAt >= openTimeout then HalfOpen else state
    }
  }

  /** New with the given thresholds. */
  function Fresh(failureThreshold: int, successThreshold: int, openTimeout: int): Core {
    Core(failureThreshold, successThreshold, openTimeout, Closed, 0, 0, 0, 0, 0)
  }

  /** The breaker with the calls running under it. `calls` maps each running call to the generation
      that admitted it; `episode` lists the outcomes recorded since the last transition and
      `admitted` counts the admissions since then. */
  datatype State = State(b: Core, now: int, calls: map<nat, nat>, episode: seq<bool>, admitted: nat)

  datatype Event = Tick(to: int) | Begin(c: nat) | End(c: nat, success: bool)

  ghost predicate Init(s: State) {
    && s.b.Configured()
    && s.b == Fresh(s.b.failureThreshold, s.b.successThreshold, s.b.openTimeout)
    && s.calls == map[] && s.episode == [] && s.admitted == 0
  }

  predicate Enabled(s: State, e: Event) {
    match e
    case Tick(to) => s.now <= to
    case Begin(c) => c !in s.calls
    case End(c, _) => c in s.calls
  }

  function Apply(s: State, e: Event): State
    requires Enabled(s, e)
  {
    match e
    case Tick(to) => s.(now := to)
    case Begin(c) =>
      var (b, g) := s.b.Admit(s.now);
      var renewed := b.generation != s.b.generation;
      var count := if renewed then 0 else s.admitted;
      State(b, s.now, if g.Some? then s.calls[c := g.value] else s.calls,
            if renewed then [] else s.episode, if g.Some? then count + 1 else count)
    case End(c, ok) =>
      var b := s.b.Record(s.calls[c], ok, s.now);
      var rest := s.calls - {c};
      if b.generation != s.b.generation then State(b, s.now, rest, [], 0)
      else State(b, s.now, rest, if s.calls[c] == s.b.generation then s.episode + [ok] else s.episode, s.admitted)
  }

  ghost predicate Next(s: State, e: Event, s': State) {
    Enabled(s, e) && s' == Apply(s, e)
  }

  /** The running calls admitted under generation g. */
  ghost function Under(calls: map<nat, nat>, g: nat): set<nat> {
    set c | c in calls && calls[c] == g
  }

  /** Length of the run of failures an outcome sequence ends with. */
  function Trailing(outcomes: seq<bool>): nat {
    if outcomes == [] || Last(outcomes) then 0 else 1 + Trailing(Front(outcomes))
  }

  ghost predicate Inv(s: State) {
    && s.b.Configured()
    && (forall c | c in s.calls :: s.calls[c] <= s.b.generation)
    && match s.b.state
       case Closed =>
         && 0 <= s.b.failures < s.b.failureThreshold
         && s.b.failures == Trailing(s.episode)
         && s.b.successes == s.b.inFlight == 0
       case HalfOpen =>
         && s.b.failures == 0
         && 0 <= s.b.successes < s.b.successThreshold
         && s.b.inFlight == |Under(s.calls, s.b.generation)|
         && s.b.successes + s.b.inFlight <= s.b.successThreshold
         && s.admitted == s.b.successes + s.b.inFlight
         && |s.episode| == s.b.successes && (forall i | 0 <= i < |s.episode| :: s.episode[i])
       case Open =>
         && s.b.failures == s.b.successes == s.b.inFlight == 0
         && Under(s.calls, s.b.generation) == {}
  }

  lemma BeginInv(s: State, c: nat)
    requires Inv(s) && c !in s.calls
    ensures Inv(Apply(s, Begin(c)))
  {
    var s' := Apply(s, Begin(c));
    var g := s'.b.generation;
    if s.b.state == Open && g != s.b.generation {
      assert Under(s.calls, g) == {};
    }
    CardFlip(Under(s.calls, g), Under(s'.calls, g), c);
  }

  lemma EndInv(s: State, c: nat, ok: bool)
    requires Inv(s) && c in s.calls
    ensures Inv(Apply(s, End(c, ok)))
  {
    var s' := Apply(s, End(c, ok));
    var g := s.b.generation;
    CardFlip(Under(s.calls, g), Under(s'.calls, g), c);
    if s.calls[c] == g {
      assert c in Under(s.calls, g);
      assert Front(s.episode + [ok]) == s.episode;
    }
  }

  lemma StepInv(s: State, e: Event, s': State)
    requires Inv(s) && Next(s, e, s')
    ensures Inv(s')
  {
    match e
    case Tick(_) =>
    case Begin(c) => BeginInv(s, c);
    case End(c, ok) => EndInv(s, c, ok);
  }

  lemma RunInv(ss: seq<State>, es: seq<Event>, k: nat)
    requires Run(Init, Next, ss, es) && k < |ss|
    ensures Inv(ss[k])
  {
    forall s, e, s' | Inv(s) && Next(s, e, s') ensures Inv(s') { StepInv(s, e, s'); }
    Invariance(Init, Next, Inv, ss, es, k);
  }

  /** In every interleaving: half-open probes in flight are exactly the running calls of the current
      generation and fit the budget with the successes; a half-open episode never admits more calls
      than the success threshold; a closed breaker is below its failure threshold; and no running
      call carries the generation of an open breaker. */
  lemma BreakerInvariant(ss: seq<State>, es: seq<Event>, k: nat)
    requires Run(Init, Next, ss, es) && k < |ss|
    ensures var s := ss[k];
            && (s.b.state == HalfOpen ==>
                  && s.b.inFlight == |Under(s.calls, s.b.generation)|
                  && s.b.successes + s.b.inFlight <= s.b.successThreshold
                  && s.admitted <= s.b.successThreshold)
            && (s.b.state == Closed ==> s.b.failures < s.b.failureThreshold)
            && (s.b.state == Open ==> forall c | c in s.calls :: s.calls[c] != s.b.generation)
  {
    RunInv(ss, es, k);
    var s := ss[k];
    if s.b.state == Open {
      forall c | c in s.calls ensures s.calls[c] != s.b.generation {
        assert c !in Under(s.calls, s.b.generation);
      }
    }
  }

  /** When the last success closes a half-open breaker, no probe is left running. */
  lemma LastProbeCloses(ss: seq<State>, es: seq<Event>, k: nat)
    requires Run(Init, Next, ss, es) && k < |es|
    requires ss[k].b.state == HalfOpen && ss[k + 1].b.state == Closed
    ensures es[k].End? && Under(ss[k].calls, ss[k].b.generation) == {es[k].c}
  {
    RunInv(ss, es, k);
    assert Next(ss[k], es[k], ss[k + 1]);
    var u := Under(ss[k].calls, ss[k].b.generation);
    assert es[k].c in u && |u| <= 1;
    CardSubset({es[k].c}, u);
    assert u == {es[k].c} + (u - {es[k].c});
  }

  // ----- what the trace means -----

  /** Admission, exactly, in every interleaving: a call is let through if and only if the breaker is closed, or open with
      the cool-down over, or half-open with room in the budget for one more beside the successes recorded in the episode
      and the probes running. Then it runs under the generation of a breaker that is closed, or half-open; otherwise
      nothing changes. */
  lemma AdmitsExactly(ss: seq<State>, es: seq<Event>, k: nat, c: nat)
    requires Run(Init, Next, ss, es) && k < |es| && es[k] == Begin(c)
    ensures c !in ss[k].calls
    ensures var s, s' := ss[k], ss[k + 1];
            && (c in s'.calls
                <==> || s.b.state == Closed
                     || (s.b.state == Open && s.b.openedAt + s.b.openTimeout <= s.now)
                     || (s.b.state == HalfOpen
                         && |s.episode| + |Under(s.calls, s.b.generation)| < s.b.successThreshold))
            && (if c in s'.calls then
                  && s'.calls == s.calls[c := s'.b.generation]
                  && s'.b.state == (if s.b.state == Closed then Closed else HalfOpen)
                  && (s.b.state == Open <==> s'.b.generation != s.b.generation)
                else s' == s)
  {
    RunInv(ss, es, k);
    assert Next(ss[k], es[k], ss[k + 1]);
  }

  /** A breaker that opens notes the instant, and keeps it while open. */
  lemma OpenedWhenTripped(ss: seq<State>, es: seq<Event>, k: nat)
    requires Run(Init, Next, ss, es) && k < |es| && ss[k + 1].b.state == Open
    ensures ss[k + 1].b.openedAt == if ss[k].b.state == Open then ss[k].b.openedAt else ss[k].now
  {
    RunInv(ss, es, k);
    assert Next(ss[k], es[k], ss[k + 1]);
    var s := ss[k];
    if es[k].End? && s.b.state == Open { assert es[k].c !in Under(s.calls, s.b.generation); }
  }

  /** The outcomes recorded in the steps from i up to k: those of calls that ended under the generation they began in. */
  ghost function Outcomes(ss: seq<State>, es: seq<Event>, i: nat, k: nat): seq<bool>
    requires |ss| == |es| + 1 && i <= k <= |es|
    decreases k
  {
    if k == i then []
    else
      Outcomes(ss, es, i, k - 1)
      + match es[k - 1]
        case End(c, ok) => if c in ss[k - 1].calls && ss[k - 1].calls[c] == ss[k - 1].b.generation then [ok] else []
        case _ => []
  }

  lemma {:induction false} GenerationGrows(ss: seq<State>, es: seq<Event>, i: nat, k: nat)
    requires Run(Init, Next, ss, es) && i <= k < |ss|
    ensures ss[i].b.generation <= ss[k].b.generation
    decreases k
  {
    if i < k {
      GenerationGrows(ss, es, i, k - 1);
      assert Next(ss[k - 1], es[k - 1], ss[k - 1 + 1]);
    }
  }

  /** An episode starts empty, when the breaker is new or has just changed its generation, and from then on holds the
      outcomes recorded since, in order, as long as the generation lasts. */
  lemma {:induction false} EpisodeIsTrace(ss: seq<State>, es: seq<Event>, i: nat, k: nat)
    requires Run(Init, Next, ss, es) && i <= k < |ss| && ss[i].b.generation == ss[k].b.generation
    requires i == 0 || ss[i - 1].b.generation != ss[i].b.generation
    ensures ss[k].episode == Outcomes(ss, es, i, k)
    decreases k
  {
    if i < k {
      GenerationGrows(ss, es, i, k - 1);
      GenerationGrows(ss, es, k - 1, k);
      EpisodeIsTrace(ss, es, i, k - 1);
      assert Next(ss[k - 1], es[k - 1], ss[k - 1 + 1]);
    } else if i > 0 {
      assert Next(ss[i - 1], es[i - 1], ss[i - 1 + 1]);
    }
  }

  /** The last n outcomes exist and are all failures. */
  ghost predicate EndsInFailures(outcomes: seq<bool>, n: int) {
    n <= |outcomes| && forall i | |outcomes| - n <= i < |outcomes| :: !outcomes[i]
  }

  lemma {:induction false} TrailingMeaning(outcomes: seq<bool>, n: nat)
    ensures Trailing(outcomes) >= n <==> EndsInFailures(outcomes, n)
  {
    if n > 0 && outcomes != [] {
      var l := |outcomes| - 1;
      if outcomes[l] {
        assert !EndsInFailures(outcomes, n);
      } else {
        TrailingMeaning(Front(outcomes), n - 1);
        assert EndsInFailures(outcomes, n) <==> EndsInFailures(Front(outcomes), n - 1) by {
          if EndsInFailures(outcomes, n) {
            forall i | l - (n - 1) <= i < l ensures !Front(outcomes)[i] { assert !outcomes[i]; }
          }
          if EndsInFailures(Front(outcomes), n - 1) {
            forall i | |outcomes| - n <= i < |outcomes| ensures !outcomes[i] {
              if i < l { assert !Front(outcomes)[i]; }
            }
          }
        }
      }
    }
  }

  /** A closed breaker trips exactly when the last failureThreshold outcomes recorded in the closed
      episode, the new one included, are all failures. */
  lemma TripsExactly(ss: seq<State>, es: seq<Event>, k: nat)
    requires Run(Init, Next, ss, es) && k < |es| && ss[k].b.state == Closed
    ensures ss[k + 1].b.state == Open
            <==> && es[k].End?
                 && ss[k].calls[es[k].c] == ss[k].b.generation
                 && EndsInFailures(ss[k].episode + [es[k].success], ss[k].b.failureThreshold)
  {
    RunInv(ss, es, k);
    var s := ss[k];
    assert Next(s, es[k], ss[k + 1]);
    if es[k].End? {
      var outcomes := s.episode + [es[k].success];
      assert Front(outcomes) == s.episode;
      TrailingMeaning(outcomes, s.b.failureThreshold);
    }
  }

  /** A half-open breaker is decided by its probes alone: it closes exactly when the outcomes recorded in the episode, the
      new one included, are successThreshold successes, and reopens exactly at the first failure recorded in it. */
  lemma ProbesDecide(ss: seq<State>, es: seq<Event>, k: nat)
    requires Run(Init, Next, ss, es) && k < |es| && ss[k].b.state == HalfOpen
    ensures ss[k + 1].b.state == Closed
            <==> && es[k].End?
                 && ss[k].calls[es[k].c] == ss[k].b.generation
                 && var outcomes := ss[k].episode + [es[k].success];
                    |outcomes| == ss[k].b.successThreshold && forall i | 0 <= i < |outcomes| :: outcomes[i]
    ensures ss[k + 1].b.state == Open
            <==> es[k].End? && ss[k].calls[es[k].c] == ss[k].b.generation && !es[k].success
    ensures forall i | 0 <= i < |ss[k].episode| :: ss[k].episode[i]
  {
    RunInv(ss, es, k);
    var s := ss[k];
    assert Next(s, es[k], ss[k + 1]);
    if es[k].End? {
      var outcomes := s.episode + [es[k].success];
      assert outcomes[|s.episode|] == es[k].success;
    }
  }

  /** The open state can only be left by an admission after the cool-down. */
  lemma {:induction false} OpenUntilCooled(ss: seq<State>, es: seq<Event>, i: nat, j: nat)
    requires Run(Init, Next, ss, es) && i <= j < |ss| && ss[i].b.state == Open
    ensures ss[j].b.openTimeout == ss[i].b.openTimeout && ss[i].now <= ss[j].now
    ensures ss[j].b == ss[i].b || ss[i].b.openedAt + ss[i].b.openTimeout <= ss[j].now
    decreases j - i
  {
    if i < j {
      OpenUntilCooled(ss, es, i, j - 1);
      assert Next(ss[j - 1], es[j - 1], ss[j - 1 + 1]);
      RunInv(ss, es, j - 1);
      var s := ss[j - 1];
      if es[j - 1].End? && s.b.state == Open {
        assert es[j - 1].c !in Under(s.calls, s.b.generation);
      }
    }
  }

  /** No call is admitted before openedAt + openTimeout: whatever happens after the breaker was open
      at position i, an admission at a later position comes after that cool-down. */
  lemma CoolDown(ss: seq<State>, es: seq<Event>, i: nat, j: nat)
    requires Run(Init, Next, ss, es) && i <= j < |es| && ss[i].b.state == Open
    requires es[j].Begin? && es[j].c in ss[j + 1].calls
    ensures ss[i].b.openedAt + ss[i].b.openTimeout <= ss[j].now
  {
    OpenUntilCooled(ss, es, i, j);
    assert Next(ss[j], es[j], ss[j + 1]);
  }

  /** The same from the step that tripped it. */
  lemma CoolDownFromTrip(ss: seq<State>, es: seq<Event>, i: nat, j: nat)
    requires Run(Init, Next, ss, es) && i < j < |es| && ss[i].b.state != Open && ss[i + 1].b.state == Open
    requires es[j].Begin? && es[j].c in ss[j + 1].calls
    ensures ss[i].now + ss[i + 1].b.openTimeout <= ss[j].now
  {
    OpenedWhenTripped(ss, es, i);
    AdmitsExactly(ss, es, j, es[j].c);
    CoolDown(ss, es, i + 1, j);
  }

  /** State names the state the next admission at that instant works under, in every breaker. */
  lemma ReportIsNextAdmission(b: Core, now: int)
    requires b.Configured()
    ensures b.Report(now) == b.Admit(now).0.state
    ensures b.Report(now) == Open ==> b.Admit(now) == (b, None)
    ensures b.Report(now) == Closed ==> b.Admit(now) == (b, Some(b.generation))
    ensures b.Admit(now).1.Some? ==> b.Admit(now).1.value == b.Admit(now).0.generation
  {
  }
}
